/**
 * The state every dynamic shape shares (RigidBody.h) and the operations of
 * RigidBody.cpp: the per-tick integrator with its wake/sleep logic, the force
 * application, the positional correction, the two-body impulse resolver, the
 * energy report and the local-to-world transform.
 *
 * Each operation is a pure function on a BodyState value; the class RigidBody
 * at the end holds the same fields and its methods are proved to change them
 * exactly as those functions say.
 */
module RigidBodies {
  import opened Vectors

  datatype Option<T> = None | Some(value: T)

  /** A snapshot of the fields of one RigidBody. */
  datatype BodyState = Body(
    position: Vec,
    velocity: Vec,
    angle: real,
    rotation: real,
    mass: real,
    moment: real,
    restitution: real,
    awake: bool,
    fixed: bool,
    hasContact: bool,
    localX: Vec,
    localY: Vec)

  /** The velocity and rotation factor applied by air resistance each tick. */
  const AirDamping: real := 0.99
  /** Sleep thresholds: |velocity| < 0.8 (compared squared) and |rotation| < 0.005. */
  const SleepSpeedSquared: real := 0.64
  const SleepSpin: real := 0.005
  /** The restitution every RigidBody is constructed with. */
  const DefaultRestitution: real := 0.95
  /** The value RigidBody::gravity starts with; the scenes overwrite its y component. */
  const DefaultGravity: Vec := Vec(0.0, -1.0)

  /** Positive mass and moment: what every division by them needs. */
  predicate Massive(s: BodyState)
  {
    s.mass > 0.0 && s.moment > 0.0
  }

  /** The motion part of a body: what integration and impulses may change. */
  predicate SameMotion(s: BodyState, t: BodyState)
  {
    s.position == t.position && s.velocity == t.velocity && s.angle == t.angle && s.rotation == t.rotation
  }

  /** The part of a body no operation of the core ever changes. */
  predicate SameConstitution(s: BodyState, t: BodyState)
  {
    s.mass == t.mass && s.moment == t.moment && s.restitution == t.restitution && s.fixed == t.fixed
  }

  /** The damped speed and spin are both under the sleep thresholds. */
  predicate Sleepy(velocity: Vec, rotation: real)
  {
    Dot(velocity, velocity) < SleepSpeedSquared && Abs(rotation) < SleepSpin
  }

  /** Is a length below the sleep speed? The same as comparing squares, for any length. */
  lemma SleepTestBySquares(v: Vec, len: real)
    requires len >= 0.0 && len * len == Dot(v, v)
    ensures len < 0.8 <==> Dot(v, v) < SleepSpeedSquared
  {
    if len >= 0.8 {
      assert len * len >= 0.8 * len >= 0.64;
    }
  }

  /**
   * RigidBody::Update. `trig` stands for the pair cosf/sinf: it maps an angle to
   * (cos, sin), from which the local axes are rebuilt.
   */
  function Integrated(s: BodyState, dt: real, gravity: Vec, trig: real -> Vec): (r: BodyState)
    // the wake rule on entry, and the flag reset on exit
    ensures !r.hasContact
    ensures var woken := s.awake || !s.hasContact;
      (s.fixed || !woken) ==> SameMotion(s, r) && r.awake == woken
    // an awake, free body: integrate with the old velocity, damp, test for sleep, then add gravity
    ensures var woken := s.awake || !s.hasContact;
      (!s.fixed && woken) ==>
        && r.angle == s.angle + s.rotation * dt
        && r.position == Add(s.position, Scale(dt, s.velocity))
        && r.rotation == AirDamping * s.rotation
        && r.awake == !Sleepy(Scale(AirDamping, s.velocity), AirDamping * s.rotation)
        && r.velocity == Add(Scale(AirDamping, s.velocity), Scale(dt, gravity))
    ensures r.localX == trig(r.angle) && r.localY == PerpCCW(trig(r.angle))
    ensures SameConstitution(s, r)
  {
    Reframed(Moved(Woken(s), dt, gravity), trig)
  }

  /** Update, step 1: a body that touched nothing since the last tick wakes up. */
  function Woken(s: BodyState): BodyState
  {
    if !s.hasContact then s.(awake := true) else s
  }

  /** Update, step 2: integrate, damp, test for sleep and add gravity, for an awake free body. */
  function Moved(s: BodyState, dt: real, gravity: Vec): BodyState
  {
    if s.awake && !s.fixed then
      var damped := Scale(AirDamping, s.velocity);
      var spin := AirDamping * s.rotation;
      s.(angle := s.angle + s.rotation * dt,
         position := Add(s.position, Scale(dt, s.velocity)),
         velocity := Add(damped, Scale(dt, gravity)),
         rotation := spin,
         awake := if Sleepy(damped, spin) then false else s.awake)
    else s
  }

  /** Update, steps 3 and 4: rebuild the local axes from the angle and clear hasContact. */
  function Reframed(s: BodyState, trig: real -> Vec): BodyState
  {
    var cs := trig(s.angle);
    s.(localX := cs, localY := PerpCCW(cs), hasContact := false)
  }

  /** n ticks of Update with the same time step, gravity and trigonometry. */
  function Ticks(s: BodyState, n: nat, dt: real, gravity: Vec, trig: real -> Vec): BodyState
  {
    if n == 0 then s else Integrated(Ticks(s, n - 1, dt, gravity, trig), dt, gravity, trig)
  }

  /** Integration alone never moves a fixed body, however many ticks pass. */
  lemma {:induction false} FixedBodyStaysPut(s: BodyState, n: nat, dt: real, gravity: Vec, trig: real -> Vec)
    requires s.fixed
    ensures SameMotion(s, Ticks(s, n, dt, gravity, trig))
    ensures Ticks(s, n, dt, gravity, trig).fixed
  {
    if n > 0 {
      FixedBodyStaysPut(s, n - 1, dt, gravity, trig);
    }
  }

  /** RigidBody::ApplyForce: an impulse `force` applied at world point `pos`. */
  function AfterForce(s: BodyState, force: Vec, pos: Vec): (r: BodyState)
    requires Massive(s)
    // only velocity and rotation change
    ensures r == s.(velocity := r.velocity, rotation := r.rotation)
    // linear impulse: mass times the change of velocity is the force
    ensures Scale(s.mass, Sub(r.velocity, s.velocity)) == force
    // angular impulse: moment times the change of rotation is the torque about the centre
    ensures s.moment * (r.rotation - s.rotation) == Cross(Sub(pos, s.position), force)
    ensures pos == s.position ==> r.rotation == s.rotation
  {
    s.(velocity := Add(s.velocity, Div(force, s.mass)),
       rotation := s.rotation + (force.y * (pos.x - s.position.x) - force.x * (pos.y - s.position.y)) / s.moment)
  }

  /** A zero force, wherever applied, changes nothing. */
  lemma NoForceNoChange(s: BodyState, force: Vec, pos: Vec)
    requires Massive(s) && force == Zero
    ensures AfterForce(s, force, pos) == s
  {
  }

  /** RigidBody::ApplyContactForce: the positional correction `penetration * normal`. */
  function AfterContactForce(s: BodyState, penetration: real, normal: Vec): (r: BodyState)
    ensures r == s.(position := r.position)
    ensures Sub(r.position, s.position) == Scale(penetration, normal)
  {
    s.(position := Add(s.position, Scale(penetration, normal)))
  }

  // ---------------------------------------------------------------------------
  // The impulse resolver (RigidBody::ResolveCollision)
  //
  // The source normalises the axis, unitDisp = axis / |axis|. Every quantity it
  // then derives is a fixed power of 1/|axis|, so the functions below work with
  // the unnormalised axis and its squared length and need no square root: the
  // levers and speeds are the source's times |axis|, and the impulse factor is
  // the source's over |axis|, so that the force, factor times axis, is the same.
  //
  // The source measures the second body's lever against -unitParallel. That is
  // the wrong sign for the speed of the second body's contact point (the force
  // it then applies turns that body by the true lever), so the law of
  // restitution fails whenever the second body spins. Resolved uses the true
  // lever for both bodies; ResolvedAsWritten keeps the source's sign.
  // ---------------------------------------------------------------------------

  /** The axis before normalisation: the given direction, else centre to centre. */
  function Axis(a: BodyState, b: BodyState, direction: Option<Vec>): Vec
  {
    if direction.Some? then direction.value else Sub(b.position, a.position)
  }

  /** The source's r1 times |axis|: the arm of the axis about the body's centre. */
  function Lever(s: BodyState, contact: Vec, axis: Vec): real
  {
    Dot(Sub(contact, s.position), PerpCW(axis))
  }

  /** The source's r2 times |axis|: measured against -unitParallel, so minus the arm. */
  function SourceLever2(b: BodyState, contact: Vec, axis: Vec): real
  {
    -Lever(b, contact, axis)
  }

  /** The source's v1 or v2 times |axis|: normal speed of the contact point, for a given lever. */
  function PointSpeed(s: BodyState, axis: Vec, lever: real): real
  {
    Dot(s.velocity, axis) + lever * s.rotation
  }

  /** The speed at which the two contact points close along the axis (times |axis|). */
  function ClosingSpeed(a: BodyState, b: BodyState, contact: Vec, axis: Vec): real
  {
    PointSpeed(a, axis, Lever(a, contact, axis)) - PointSpeed(b, axis, Lever(b, contact, axis))
  }

  /** 1 / (1/mass + r*r/moment): the mass the contact point appears to have. */
  function EffectiveMass(mass: real, moment: real, leverSquared: real): (k: real)
    requires mass > 0.0 && moment > 0.0 && leverSquared >= 0.0
    ensures k > 0.0
    ensures 1.0 / k == 1.0 / mass + leverSquared / moment
  {
    var inv := 1.0 / mass + leverSquared / moment;
    assert 1.0 / mass > 0.0;
    assert leverSquared / moment >= 0.0;
    1.0 / inv
  }

  /** r*r/moment: how much the spin of a body answers a unit impulse at lever r. */
  function Turning(lever: real, moment: real): real
    requires moment != 0.0
  {
    lever * lever / moment
  }

  lemma TurningNonNegative(lever: real, moment: real)
    requires moment > 0.0
    ensures Turning(lever, moment) >= 0.0
    ensures lever != 0.0 ==> Turning(lever, moment) > 0.0
  {
    SquarePositive(lever);
    assert lever * lever == Mul(lever, lever);
  }

  /** The sign of the lever does not matter to the turning term. */
  lemma TurningEven(lever: real, moment: real)
    requires moment != 0.0
    ensures Turning(-lever, moment) == Turning(lever, moment)
  {
    assert (-lever) * (-lever) == lever * lever;
  }

  /**
   * How much a unit of impulse along the axis changes the closing speed, times |axis|^2:
   * 1/m1 + r1*r1/I1 + 1/m2 + r2*r2/I2, the denominator of the source's `force2`.
   */
  function Compliance(a: BodyState, b: BodyState, axis: Vec, r1: real, r2: real): real
    requires Massive(a) && Massive(b)
  {
    Dot(axis, axis) / a.mass + Turning(r1, a.moment) + Dot(axis, axis) / b.mass + Turning(r2, b.moment)
  }

  /** The compliance is positive for a non-zero axis. */
  lemma CompliancePositive(a: BodyState, b: BodyState, axis: Vec, r1: real, r2: real)
    requires Massive(a) && Massive(b) && axis != Zero
    ensures Compliance(a, b, axis, r1, r2) > 0.0
  {
    DotSelfZero(axis);
    TurningNonNegative(r1, a.moment);
    TurningNonNegative(r2, b.moment);
  }

  /** x / c, for a non-zero c. */
  function Quotient(x: real, c: real): (q: real)
    requires c != 0.0
    ensures q * c == x
  {
    x / c
  }

  /**
   * The impulse per unit of axis, in the form of the source's `force2`:
   * (1 + restitution) * (v1 - v2) / (1/m1 + r1*r1/I1 + 1/m2 + r2*r2/I2), over |axis|^2.
   * It is the impulse that changes v1 - v2, each measured with the given lever, by
   * (1 + restitution) times itself.
   */
  function ImpulseFactor(a: BodyState, b: BodyState, axis: Vec, r1: real, r2: real): (k: real)
    requires Massive(a) && Massive(b) && axis != Zero
    ensures k * Compliance(a, b, axis, r1, r2)
         == (1.0 + a.restitution) * (PointSpeed(a, axis, r1) - PointSpeed(b, axis, r2))
  {
    var c := Compliance(a, b, axis, r1, r2);
    assert c > 0.0 by { CompliancePositive(a, b, axis, r1, r2); }
    Impulse(a.restitution, PointSpeed(a, axis, r1), PointSpeed(b, axis, r2), c)
  }

  /** The impulse that turns a closing speed v1 - v2 into -restitution times it, against compliance c. */
  function Impulse(restitution: real, v1: real, v2: real, c: real): (k: real)
    requires c != 0.0
    ensures k * c == (1.0 + restitution) * (v1 - v2)
  {
    Quotient((1.0 + restitution) * (v1 - v2), c)
  }

  /**
   * The resolver's `force`: (1 + restitution) * mass1*mass2/(mass1 + mass2) * (v1 - v2), with
   * mass_i = 1/(1/m_i + r_i*r_i/I_i) the effective mass at the contact, is the same impulse.
   */
  lemma ReducedMassForm(a: BodyState, b: BodyState, axis: Vec, r1: real, r2: real)
    requires Massive(a) && Massive(b) && axis != Zero
    ensures var aa := Dot(axis, axis);
      aa > 0.0 && Turning(r1, aa) >= 0.0 && Turning(r2, aa) >= 0.0 &&
      var m1 := EffectiveMass(a.mass, a.moment, Turning(r1, aa));
      var m2 := EffectiveMass(b.mass, b.moment, Turning(r2, aa));
      ImpulseFactor(a, b, axis, r1, r2)
        == (1.0 + a.restitution) * (m1 * m2 / (m1 + m2)) * (PointSpeed(a, axis, r1) - PointSpeed(b, axis, r2)) / aa
  {
    var aa := Dot(axis, axis);
    ComplianceByEffectiveMasses(a, b, axis, r1, r2);
    var m1 := EffectiveMass(a.mass, a.moment, Turning(r1, aa));
    var m2 := EffectiveMass(b.mass, b.moment, Turning(r2, aa));
    ReducedMassAlgebra(1.0 + a.restitution, PointSpeed(a, axis, r1) - PointSpeed(b, axis, r2), aa, m1, m2,
      Compliance(a, b, axis, r1, r2), ImpulseFactor(a, b, axis, r1, r2));
  }

  /** The compliance is |axis|^2 times the sum of the inverse effective masses. */
  lemma ComplianceByEffectiveMasses(a: BodyState, b: BodyState, axis: Vec, r1: real, r2: real)
    requires Massive(a) && Massive(b) && axis != Zero
    ensures var aa := Dot(axis, axis);
      aa > 0.0 && Turning(r1, aa) >= 0.0 && Turning(r2, aa) >= 0.0 &&
      Compliance(a, b, axis, r1, r2)
        == aa * (1.0 / EffectiveMass(a.mass, a.moment, Turning(r1, aa))
                 + 1.0 / EffectiveMass(b.mass, b.moment, Turning(r2, aa)))
  {
    DotSelfZero(axis);
    var aa := Dot(axis, axis);
    TurningNonNegative(r1, aa);
    TurningNonNegative(r2, aa);
    ComplianceScaled(aa, r1, a.mass, a.moment);
    ComplianceScaled(aa, r2, b.mass, b.moment);
  }

  /** |axis|^2 times a body's inverse effective mass is its own compliance against the unscaled lever. */
  lemma ComplianceScaled(aa: real, r: real, mass: real, moment: real)
    requires aa > 0.0 && mass > 0.0 && moment > 0.0
    ensures aa * (1.0 / mass + Turning(r, aa) / moment) == aa / mass + Turning(r, moment)
  {
    var q := r * r;
    assert q / aa / moment * aa == q / moment;
  }

  /** The step behind ReducedMassForm, on plain numbers: solve j * c == e1 * closing for j. */
  lemma ReducedMassAlgebra(e1: real, closing: real, aa: real, m1: real, m2: real, c: real, j: real)
    requires aa > 0.0 && m1 > 0.0 && m2 > 0.0
    requires c == aa * (1.0 / m1 + 1.0 / m2) && j * c == e1 * closing
    ensures j == e1 * (m1 * m2 / (m1 + m2)) * closing / aa
  {
    var k := e1 * (m1 * m2 / (m1 + m2)) * closing / aa;
    ReducedMassInverse(m1, m2);
    ImpulseCancels(e1, m1 * m2 / (m1 + m2), closing, aa, 1.0 / m1 + 1.0 / m2, c);
    assert c > 0.0;
    FactorUnique(k, j, c);
  }

  /** The reduced mass m1*m2/(m1+m2) is the reciprocal of 1/m1 + 1/m2. */
  lemma ReducedMassInverse(m1: real, m2: real)
    requires m1 > 0.0 && m2 > 0.0
    ensures (m1 * m2 / (m1 + m2)) * (1.0 / m1 + 1.0 / m2) == 1.0
  {
    calc {
      1.0 / m1 + 1.0 / m2;
      (m1 + m2) / (m1 * m2);
    }
  }

  lemma ImpulseCancels(e1: real, mu: real, closing: real, aa: real, inv: real, c: real)
    requires aa != 0.0 && mu * inv == 1.0 && c == aa * inv
    ensures e1 * mu * closing / aa * c == e1 * closing
  {
    var x := e1 * closing;
    assert e1 * mu * closing / aa * c == Mul(x, mu * inv) * (aa / aa);
    assert Mul(x, mu * inv) == Mul(x, 1.0);
  }

  /** A product with a non-zero factor determines the other factor. */
  lemma FactorUnique(k: real, j: real, c: real)
    requires c != 0.0 && k * c == j * c
    ensures k == j
  {
    assert (k - j) * c == 0.0;
  }

  /** The contact points close along the axis (v1 > v2); false for a zero axis, NaN in the source. */
  predicate Closing(a: BodyState, b: BodyState, axis: Vec, r1: real, r2: real)
  {
    axis != Zero && PointSpeed(a, axis, r1) > PointSpeed(b, axis, r2)
  }

  /**
   * The body of ResolveCollision once the axis and the two levers are known: wakefulness
   * spreads, this body is marked in contact, and if the points close each body receives
   * its half of the impulse at the contact: -force on this body, force on the other.
   */
  function Exchange(a: BodyState, b: BodyState, contact: Vec, axis: Vec, r1: real, r2: real): (r: (BodyState, BodyState))
    requires Massive(a) && Massive(b)
    ensures SameConstitution(a, r.0) && SameConstitution(b, r.1)
    ensures r.0.position == a.position && r.1.position == b.position
    ensures r.0.angle == a.angle && r.1.angle == b.angle
  {
    var woke := a.awake || b.awake;
    var a1 := a.(awake := woke, hasContact := true);
    var b1 := b.(awake := woke);
    if Closing(a, b, axis, r1, r2) then
      var force := Scale(ImpulseFactor(a, b, axis, r1, r2), axis);
      (AfterForce(a1, Neg(force), contact), AfterForce(b1, force, contact))
    else
      (a1, b1)
  }

  /** RigidBody::ResolveCollision as written, `a` being this body and `b` the other one. */
  function ResolvedAsWritten(a: BodyState, b: BodyState, contact: Vec, direction: Option<Vec>): (r: (BodyState, BodyState))
    requires Massive(a) && Massive(b)
    ensures SameConstitution(a, r.0) && SameConstitution(b, r.1)
    ensures r.0.position == a.position && r.1.position == b.position
    ensures r.0.angle == a.angle && r.1.angle == b.angle
  {
    var axis := Axis(a, b, direction);
    Exchange(a, b, contact, axis, Lever(a, contact, axis), SourceLever2(b, contact, axis))
  }

  /** RigidBody::ResolveCollision with the second lever's sign corrected: the model's resolver. */
  function Resolved(a: BodyState, b: BodyState, contact: Vec, direction: Option<Vec>): (r: (BodyState, BodyState))
    requires Massive(a) && Massive(b)
    ensures SameConstitution(a, r.0) && SameConstitution(b, r.1)
    ensures r.0.position == a.position && r.1.position == b.position
    ensures r.0.angle == a.angle && r.1.angle == b.angle
  {
    var axis := Axis(a, b, direction);
    Exchange(a, b, contact, axis, Lever(a, contact, axis), Lever(b, contact, axis))
  }

  /** Wakefulness spreads, only this body's hasContact is set, and the frames stay. */
  lemma ExchangeFlags(a: BodyState, b: BodyState, contact: Vec, axis: Vec, r1: real, r2: real)
    requires Massive(a) && Massive(b)
    ensures var r := Exchange(a, b, contact, axis, r1, r2);
      && r.0.awake == (a.awake || b.awake) && r.1.awake == (a.awake || b.awake)
      && r.0.hasContact && r.1.hasContact == b.hasContact
      && r.0.localX == a.localX && r.0.localY == a.localY
      && r.1.localX == b.localX && r.1.localY == b.localY
  {
  }

  /** Points already separating (v1 <= v2) get no impulse: velocities and rotations stay. */
  lemma SeparatingGetsNoImpulse(a: BodyState, b: BodyState, contact: Vec, axis: Vec, r1: real, r2: real)
    requires Massive(a) && Massive(b)
    requires !Closing(a, b, axis, r1, r2)
    ensures var r := Exchange(a, b, contact, axis, r1, r2);
      SameMotion(a, r.0) && SameMotion(b, r.1)
  {
  }

  /** Exchange, when the points close: each body takes its half of the impulse. */
  lemma ExchangeClosing(a: BodyState, b: BodyState, contact: Vec, axis: Vec, r1: real, r2: real)
    requires Massive(a) && Massive(b)
    requires Closing(a, b, axis, r1, r2)
    ensures var k := ImpulseFactor(a, b, axis, r1, r2);
      var woke := a.awake || b.awake;
      Exchange(a, b, contact, axis, r1, r2)
        == (AfterForce(a.(awake := woke, hasContact := true), Scale(-k, axis), contact),
            AfterForce(b.(awake := woke), Scale(k, axis), contact))
  {
    var k := ImpulseFactor(a, b, axis, r1, r2);
    assert Neg(Scale(k, axis)) == Scale(-k, axis);
  }

  /** A body's true contact-point speed after it receives k * axis at the contact. */
  lemma {:induction false} PointSpeedAfterImpulse(s: BodyState, k: real, axis: Vec, contact: Vec)
    requires Massive(s)
    ensures var t := AfterForce(s, Scale(k, axis), contact);
      PointSpeed(t, axis, Lever(t, contact, axis))
        == PointSpeed(s, axis, Lever(s, contact, axis)) + k * (Dot(axis, axis) / s.mass + Turning(Lever(s, contact, axis), s.moment))
  {
    var t := AfterForce(s, Scale(k, axis), contact);
    var r := Lever(s, contact, axis);
    assert Lever(t, contact, axis) == r;
    ImpulseVelocityAlong(s, k, axis, contact);
    ImpulseRotation(s, k, axis, contact);
    var p, q := Dot(axis, axis) / s.mass, Turning(r, s.moment);
    assert k * Dot(axis, axis) / s.mass == k * p;
    assert r * (k * r / s.moment) == k * q;
    assert PointSpeed(t, axis, r) == Dot(s.velocity, axis) + k * p + r * (s.rotation + k * r / s.moment);
  }

  /** The impulse k * axis changes the velocity along the axis by k * |axis|² / mass. */
  lemma ImpulseVelocityAlong(s: BodyState, k: real, axis: Vec, contact: Vec)
    requires Massive(s)
    ensures Dot(AfterForce(s, Scale(k, axis), contact).velocity, axis) == Dot(s.velocity, axis) + k * Dot(axis, axis) / s.mass
  {
    var v := AfterForce(s, Scale(k, axis), contact).velocity;
    assert v == Add(s.velocity, Div(Scale(k, axis), s.mass));
    assert Dot(Div(Scale(k, axis), s.mass), axis) == k * Dot(axis, axis) / s.mass;
  }

  /** The impulse k * axis at the contact changes the rotation by k times the lever arm over the moment. */
  lemma ImpulseRotation(s: BodyState, k: real, axis: Vec, contact: Vec)
    requires Massive(s)
    ensures AfterForce(s, Scale(k, axis), contact).rotation == s.rotation + k * Lever(s, contact, axis) / s.moment
  {
    var t := AfterForce(s, Scale(k, axis), contact);
    var d := Sub(contact, s.position);
    DotPerpCW(d, axis);
    CrossScaleRight(d, k, axis);
    assert s.moment * (t.rotation - s.rotation) == k * Lever(s, contact, axis);
  }

  /** The closing speed after the impulses -k * axis and k * axis at one contact. */
  lemma {:induction false} ImpulsePairClosingSpeed(a: BodyState, b: BodyState, k: real, axis: Vec, contact: Vec)
    requires Massive(a) && Massive(b)
    ensures ClosingSpeed(AfterForce(a, Scale(-k, axis), contact), AfterForce(b, Scale(k, axis), contact), contact, axis)
         == ClosingSpeed(a, b, contact, axis) - Mul(k, Compliance(a, b, axis, Lever(a, contact, axis), Lever(b, contact, axis)))
  {
    PointSpeedAfterImpulse(a, -k, axis, contact);
    PointSpeedAfterImpulse(b, k, axis, contact);
    var p1, q1 := Dot(axis, axis) / a.mass, Turning(Lever(a, contact, axis), a.moment);
    var p2, q2 := Dot(axis, axis) / b.mass, Turning(Lever(b, contact, axis), b.moment);
    assert -k * (p1 + q1) - k * (p2 + q2) == -(k * (p1 + q1 + p2 + q2));
  }

  /**
   * Newton's law of restitution: after the impulse the contact points separate at
   * restitution times the speed at which they closed.
   */
  lemma {:induction false} ResolvedRestitution(a: BodyState, b: BodyState, contact: Vec, direction: Option<Vec>)
    requires Massive(a) && Massive(b)
    requires Closing(a, b, Axis(a, b, direction), Lever(a, contact, Axis(a, b, direction)), Lever(b, contact, Axis(a, b, direction)))
    ensures var axis := Axis(a, b, direction);
      var r := Resolved(a, b, contact, direction);
      ClosingSpeed(r.0, r.1, contact, axis) == -a.restitution * ClosingSpeed(a, b, contact, axis)
  {
    var axis := Axis(a, b, direction);
    var r1, r2 := Lever(a, contact, axis), Lever(b, contact, axis);
    ExchangeClosingSpeed(a, b, contact, axis);
    assert Mul(ImpulseFactor(a, b, axis, r1, r2), Compliance(a, b, axis, r1, r2))
        == (1.0 + a.restitution) * ClosingSpeed(a, b, contact, axis);
  }

  /** The closing speed after Exchange with the true levers: it falls by the factor times the compliance. */
  lemma {:induction false} ExchangeClosingSpeed(a: BodyState, b: BodyState, contact: Vec, axis: Vec)
    requires Massive(a) && Massive(b)
    requires Closing(a, b, axis, Lever(a, contact, axis), Lever(b, contact, axis))
    ensures var r1, r2 := Lever(a, contact, axis), Lever(b, contact, axis);
      var r := Exchange(a, b, contact, axis, r1, r2);
      ClosingSpeed(r.0, r.1, contact, axis)
        == ClosingSpeed(a, b, contact, axis) - Mul(ImpulseFactor(a, b, axis, r1, r2), Compliance(a, b, axis, r1, r2))
  {
    var r1, r2 := Lever(a, contact, axis), Lever(b, contact, axis);
    var woke := a.awake || b.awake;
    var a1 := a.(awake := woke, hasContact := true);
    var b1 := b.(awake := woke);
    var k := ImpulseFactor(a, b, axis, r1, r2);
    ExchangeClosing(a, b, contact, axis, r1, r2);
    ImpulsePairClosingSpeed(a1, b1, k, axis, contact);
    assert ClosingSpeed(a1, b1, contact, axis) == ClosingSpeed(a, b, contact, axis);
    assert Compliance(a1, b1, axis, Lever(a1, contact, axis), Lever(b1, contact, axis)) == Compliance(a, b, axis, r1, r2);
  }

  /** The source's v1 - v2 differs from the true closing speed by twice the second body's spin term. */
  lemma SourceClosingSpeed(a: BodyState, b: BodyState, contact: Vec, axis: Vec)
    ensures PointSpeed(a, axis, Lever(a, contact, axis)) - PointSpeed(b, axis, SourceLever2(b, contact, axis))
         == ClosingSpeed(a, b, contact, axis) + 2.0 * Lever(b, contact, axis) * b.rotation
  {
  }

  /** Without spin on the second body, or with its contact on the axis line, both resolvers agree. */
  lemma {:induction false} AsWrittenAgreesWithoutSecondSpin(a: BodyState, b: BodyState, contact: Vec, direction: Option<Vec>)
    requires Massive(a) && Massive(b)
    requires b.rotation == 0.0 || Lever(b, contact, Axis(a, b, direction)) == 0.0
    ensures ResolvedAsWritten(a, b, contact, direction) == Resolved(a, b, contact, direction)
  {
    var axis := Axis(a, b, direction);
    var r1, r2 := Lever(a, contact, axis), Lever(b, contact, axis);
    assert PointSpeed(b, axis, -r2) == PointSpeed(b, axis, r2) by {
      if b.rotation == 0.0 {
        assert (-r2) * b.rotation == 0.0 && r2 * b.rotation == 0.0;
      }
    }
    TurningEven(r2, b.moment);
    assert Compliance(a, b, axis, r1, -r2) == Compliance(a, b, axis, r1, r2);
    if axis != Zero {
      ImpulseFactorDependsOnSpeeds(a, b, axis, r1, -r2, r2);
    }
  }

  /** Two second levers with the same point speed and the same compliance give the same impulse. */
  lemma ImpulseFactorDependsOnSpeeds(a: BodyState, b: BodyState, axis: Vec, r1: real, r2: real, r2': real)
    requires Massive(a) && Massive(b) && axis != Zero
    requires PointSpeed(b, axis, r2) == PointSpeed(b, axis, r2')
    requires Compliance(a, b, axis, r1, r2) == Compliance(a, b, axis, r1, r2')
    ensures ImpulseFactor(a, b, axis, r1, r2) == ImpulseFactor(a, b, axis, r1, r2')
  {
    CompliancePositive(a, b, axis, r1, r2);
    assert ImpulseFactor(a, b, axis, r1, r2)
        == Impulse(a.restitution, PointSpeed(a, axis, r1), PointSpeed(b, axis, r2), Compliance(a, b, axis, r1, r2));
  }

  /**
   * As written, a second body whose spin carries its contact point towards the first can be
   * taken for one moving away: then no impulse is applied and the points go on closing.
   */
  lemma {:induction false} AsWrittenMissesClosing(a: BodyState, b: BodyState, contact: Vec, direction: Option<Vec>)
    requires Massive(a) && Massive(b)
    requires var axis := Axis(a, b, direction);
      0.0 < ClosingSpeed(a, b, contact, axis) <= -2.0 * Lever(b, contact, axis) * b.rotation
    ensures var axis := Axis(a, b, direction);
      var r := ResolvedAsWritten(a, b, contact, direction);
      ClosingSpeed(r.0, r.1, contact, axis) == ClosingSpeed(a, b, contact, axis) > 0.0
  {
    var axis := Axis(a, b, direction);
    SourceClosingSpeed(a, b, contact, axis);
    assert !Closing(a, b, axis, Lever(a, contact, axis), SourceLever2(b, contact, axis));
    var r := ResolvedAsWritten(a, b, contact, direction);
    SeparatingGetsNoImpulse(a, b, contact, axis, Lever(a, contact, axis), SourceLever2(b, contact, axis));
    MotionDecidesClosingSpeed(a, b, r.0, r.1, contact, axis);
  }

  /**
   * Such bodies exist: unit masses and moments, the first body at the origin moving at (1, 0),
   * the second at (2, 0) spinning at 1, touching at (1, 1) along the axis (1, 0). The contact
   * points close at 2, and the source's v1 - v2 is 0.
   */
  lemma MissedClosingExample()
    ensures var a := Body(Zero, Vec(1.0, 0.0), 0.0, 0.0, 1.0, 1.0, 0.0, true, false, false, Vec(1.0, 0.0), Vec(0.0, 1.0));
      var b := Body(Vec(2.0, 0.0), Zero, 0.0, 1.0, 1.0, 1.0, 0.0, true, false, false, Vec(1.0, 0.0), Vec(0.0, 1.0));
      var contact, axis := Vec(1.0, 1.0), Vec(1.0, 0.0);
      && ClosingSpeed(a, b, contact, axis) == 2.0
      && -2.0 * Lever(b, contact, axis) * b.rotation == 2.0
  {
    var a := Body(Zero, Vec(1.0, 0.0), 0.0, 0.0, 1.0, 1.0, 0.0, true, false, false, Vec(1.0, 0.0), Vec(0.0, 1.0));
    var b := Body(Vec(2.0, 0.0), Zero, 0.0, 1.0, 1.0, 1.0, 0.0, true, false, false, Vec(1.0, 0.0), Vec(0.0, 1.0));
    var contact, axis := Vec(1.0, 1.0), Vec(1.0, 0.0);
    assert Lever(a, contact, axis) == -1.0;
    assert Lever(b, contact, axis) == -1.0;
  }

  /** The closing speed depends only on the motion of the two bodies. */
  lemma MotionDecidesClosingSpeed(a: BodyState, b: BodyState, a1: BodyState, b1: BodyState, contact: Vec, axis: Vec)
    requires SameMotion(a, a1) && SameMotion(b, b1)
    ensures ClosingSpeed(a1, b1, contact, axis) == ClosingSpeed(a, b, contact, axis)
  {
    assert Lever(a1, contact, axis) == Lever(a, contact, axis);
    assert Lever(b1, contact, axis) == Lever(b, contact, axis);
  }

  /** Total linear momentum of two bodies. */
  function Momentum(a: BodyState, b: BodyState): Vec
  {
    Add(Scale(a.mass, a.velocity), Scale(b.mass, b.velocity))
  }

  /** Spin plus orbital angular momentum about the world origin. */
  function AngularMomentum(s: BodyState): real
  {
    s.moment * s.rotation + s.mass * Cross(s.position, s.velocity)
  }

  /** An impulse at `pos` adds Cross(pos, force) to the angular momentum about the origin. */
  lemma {:induction false} AfterForceAngularMomentum(s: BodyState, force: Vec, pos: Vec)
    requires Massive(s)
    ensures AngularMomentum(AfterForce(s, force, pos)) == AngularMomentum(s) + Cross(pos, force)
  {
    var r := AfterForce(s, force, pos);
    var dv := Sub(r.velocity, s.velocity);
    assert r.velocity == Add(s.velocity, dv);
    assert Scale(s.mass, dv) == force;
    calc {
      s.mass * Cross(s.position, r.velocity);
      s.mass * (s.position.x * (s.velocity.y + dv.y) - s.position.y * (s.velocity.x + dv.x));
      s.mass * Cross(s.position, s.velocity) + s.position.x * (s.mass * dv.y) - s.position.y * (s.mass * dv.x);
      s.mass * Cross(s.position, s.velocity) + Cross(s.position, force);
    }
    CrossAddLeft(Sub(pos, s.position), s.position, force);
    assert Add(Sub(pos, s.position), s.position) == pos;
  }

  /** Equal and opposite forces change the total linear momentum by nothing. */
  lemma {:induction false} OppositeForcesConserveMomentum(a: BodyState, b: BodyState, f: Vec, p: Vec, q: Vec)
    requires Massive(a) && Massive(b)
    ensures Momentum(AfterForce(a, Neg(f), p), AfterForce(b, f, q)) == Momentum(a, b)
  {
    var a1, b1 := AfterForce(a, Neg(f), p), AfterForce(b, f, q);
    assert a.mass * a1.velocity.x - a.mass * a.velocity.x == -f.x;
    assert b.mass * b1.velocity.x - b.mass * b.velocity.x == f.x;
    assert a.mass * a1.velocity.y - a.mass * a.velocity.y == -f.y;
    assert b.mass * b1.velocity.y - b.mass * b.velocity.y == f.y;
  }

  /** Equal and opposite impulses: linear momentum is conserved, whichever levers are used. */
  lemma {:induction false} ExchangeConservesMomentum(a: BodyState, b: BodyState, contact: Vec, axis: Vec, r1: real, r2: real)
    requires Massive(a) && Massive(b)
    ensures var r := Exchange(a, b, contact, axis, r1, r2);
      Momentum(r.0, r.1) == Momentum(a, b)
  {
    var woke := a.awake || b.awake;
    var a1 := a.(awake := woke, hasContact := true);
    var b1 := b.(awake := woke);
    assert Momentum(a1, b1) == Momentum(a, b);
    if Closing(a, b, axis, r1, r2) {
      OppositeForcesConserveMomentum(a1, b1, Scale(ImpulseFactor(a, b, axis, r1, r2), axis), contact, contact);
    }
  }

  /** Equal and opposite forces at one point change the total angular momentum by nothing. */
  lemma {:induction false} OppositeForcesConserveAngularMomentum(a: BodyState, b: BodyState, f: Vec, p: Vec)
    requires Massive(a) && Massive(b)
    ensures AngularMomentum(AfterForce(a, Neg(f), p)) + AngularMomentum(AfterForce(b, f, p))
         == AngularMomentum(a) + AngularMomentum(b)
  {
    AfterForceAngularMomentum(a, Neg(f), p);
    AfterForceAngularMomentum(b, f, p);
    CrossNegRight(p, f);
  }

  /** Equal and opposite impulses at one point: angular momentum about the origin is conserved. */
  lemma {:induction false} ExchangeConservesAngularMomentum(a: BodyState, b: BodyState, contact: Vec, axis: Vec, r1: real, r2: real)
    requires Massive(a) && Massive(b)
    ensures var r := Exchange(a, b, contact, axis, r1, r2);
      AngularMomentum(r.0) + AngularMomentum(r.1) == AngularMomentum(a) + AngularMomentum(b)
  {
    var woke := a.awake || b.awake;
    var a1 := a.(awake := woke, hasContact := true);
    var b1 := b.(awake := woke);
    assert AngularMomentum(a1) == AngularMomentum(a) && AngularMomentum(b1) == AngularMomentum(b);
    if Closing(a, b, axis, r1, r2) {
      OppositeForcesConserveAngularMomentum(a1, b1, Scale(ImpulseFactor(a, b, axis, r1, r2), axis), contact);
    }
  }

  /** A resolved collision conserves total linear and angular momentum, whether or not it applies an impulse. */
  lemma {:induction false} ResolvedConserves(a: BodyState, b: BodyState, contact: Vec, direction: Option<Vec>)
    requires Massive(a) && Massive(b)
    ensures var r := Resolved(a, b, contact, direction);
      && Momentum(r.0, r.1) == Momentum(a, b)
      && AngularMomentum(r.0) + AngularMomentum(r.1) == AngularMomentum(a) + AngularMomentum(b)
  {
    var axis := Axis(a, b, direction);
    ExchangeConservesMomentum(a, b, contact, axis, Lever(a, contact, axis), Lever(b, contact, axis));
    ExchangeConservesAngularMomentum(a, b, contact, axis, Lever(a, contact, axis), Lever(b, contact, axis));
  }

  // ---------------------------------------------------------------------------
  // Energy and frames
  // ---------------------------------------------------------------------------

  /** What RigidBody::getEnergy returns: the total, and through its out-parameters k, g and r. */
  datatype EnergyReport = EnergyReport(total: real, kinetic: real, potential: real, rotational: real)

  /** RigidBody::getEnergy */
  function Energy(s: BodyState, gravity: Vec): (e: EnergyReport)
    ensures e.total == e.potential + e.kinetic + e.rotational
    ensures e.potential == -s.mass * Dot(s.position, gravity)
    ensures s.mass > 0.0 ==> e.kinetic >= 0.0 && (e.kinetic == 0.0 <==> s.velocity == Zero)
    ensures s.moment > 0.0 ==> e.rotational >= 0.0 && (e.rotational == 0.0 <==> s.rotation == 0.0)
  {
    var g := -s.mass * Dot(s.position, gravity);
    var k := KineticEnergy(s.mass, s.velocity);
    var r := RotationalEnergy(s.moment, s.rotation);
    EnergyReport(g + k + r, k, g, r)
  }

  /** k = 0.5 * mass * |velocity|^2 */
  function KineticEnergy(mass: real, velocity: Vec): (k: real)
    ensures mass > 0.0 ==> k >= 0.0 && (k == 0.0 <==> velocity == Zero)
  {
    HalfWeightedSquare(mass, Dot(velocity, velocity));
    DotSelfZero(velocity);
    0.5 * mass * Dot(velocity, velocity)
  }

  /** r = 0.5 * moment * rotation^2 */
  function RotationalEnergy(moment: real, rotation: real): (r: real)
    ensures moment > 0.0 ==> r >= 0.0 && (r == 0.0 <==> rotation == 0.0)
  {
    SquarePositive(rotation);
    HalfWeightedSquare(moment, Mul(rotation, rotation));
    assert 0.5 * moment * rotation * rotation == 0.5 * moment * Mul(rotation, rotation);
    0.5 * moment * rotation * rotation
  }

  /** Half a positive weight times a non-negative quantity: non-negative, and zero only with it. */
  lemma HalfWeightedSquare(w: real, q: real)
    ensures w > 0.0 && q >= 0.0 ==> 0.5 * w * q >= 0.0 && (0.5 * w * q == 0.0 <==> q == 0.0)
  {
    if w > 0.0 && q > 0.0 {
      MulSign(0.5 * w, q);
      assert Mul(0.5 * w, q) == 0.5 * w * q;
    }
  }

  /** RigidBody::ToWorld: a point given in the body's local frame, in world coordinates. */
  function ToWorld(s: BodyState, p: Vec): (r: Vec)
    // the local origin is the centre of mass
    ensures p == Zero ==> r == s.position
  {
    Add(s.position, Add(Scale(p.x, s.localX), Scale(p.y, s.localY)))
  }

  /** The local coordinates of a world point: its offset from the centre along localX and localY. */
  function ToLocal(s: BodyState, p: Vec): Vec
  {
    Vec(Dot(Sub(p, s.position), s.localX), Dot(Sub(p, s.position), s.localY))
  }

  /** With an orthonormal frame, ToWorld and ToLocal undo each other. */
  lemma {:induction false} WorldLocalRoundTrip(s: BodyState, p: Vec, q: Vec)
    requires Orthonormal(s.localX, s.localY)
    ensures ToLocal(s, ToWorld(s, p)) == p
    ensures ToWorld(s, ToLocal(s, q)) == q
  {
    var u, v := s.localX, s.localY;
    assert u.x * u.x + u.y * u.y == 1.0;
    var d := Add(Scale(p.x, u), Scale(p.y, v));
    assert Sub(ToWorld(s, p), s.position) == d;
    calc {
      Dot(d, u);
      p.x * (u.x * u.x + u.y * u.y) + p.y * (v.x * u.x + v.y * u.y);
      p.x;
    }
    calc {
      Dot(d, v);
      p.x * (u.x * v.x + u.y * v.y) + p.y * (v.x * v.x + v.y * v.y);
      p.y;
    }
    var e := Sub(q, s.position);
    FrameDecompose(u, v, e);
    assert ToWorld(s, ToLocal(s, q)) == Add(s.position, e);
  }

  // ---------------------------------------------------------------------------
  // The class
  // ---------------------------------------------------------------------------

  class RigidBody {
    var position: Vec
    var velocity: Vec
    var angle: real
    var rotation: real
    var mass: real
    var moment: real
    var restitution: real
    var awake: bool
    var fixed: bool
    var hasContact: bool
    var localX: Vec
    var localY: Vec

    function State(): BodyState
      reads this
    {
      Body(position, velocity, angle, rotation, mass, moment, restitution, awake, fixed, hasContact, localX, localY)
    }

    predicate Valid()
      reads this
    {
      Massive(State())
    }

    /**
     * The fields a Box or Circle constructor assigns; rotation starts at 0,
     * restitution at 0.95, the body awake and out of contact.
     */
    constructor (position: Vec, velocity: Vec, angle: real, mass: real, moment: real, fixed: bool, localX: Vec, localY: Vec)
      ensures State() == Body(position, velocity, angle, 0.0, mass, moment, DefaultRestitution, true, fixed, false, localX, localY)
    {
      this.position := position;
      this.velocity := velocity;
      this.angle := angle;
      this.rotation := 0.0;
      this.mass := mass;
      this.moment := moment;
      this.restitution := DefaultRestitution;
      this.awake := true;
      this.fixed := fixed;
      this.hasContact := false;
      this.localX := localX;
      this.localY := localY;
    }

    method Update(dt: real, gravity: Vec, trig: real -> Vec)
      modifies this
      ensures State() == Integrated(old(State()), dt, gravity, trig)
    {
      if !hasContact {
        awake := true;
      }
      Move(dt, gravity);
      var cs := trig(angle);
      localX := cs;
      localY := PerpCCW(cs);
      hasContact := false;
    }

    /** The middle of Update: integrate, damp, test for sleep and add gravity. */
    method Move(dt: real, gravity: Vec)
      modifies this
      ensures State() == Moved(old(State()), dt, gravity)
    {
      var s := State();
      if awake && !fixed {
        var damped, spin := Scale(AirDamping, s.velocity), AirDamping * s.rotation;
        angle := s.angle + s.rotation * dt;
        position := Add(s.position, Scale(dt, s.velocity));
        rotation := spin;
        if Dot(damped, damped) < SleepSpeedSquared && Abs(spin) < SleepSpin {
          awake := false;
        }
        velocity := Add(damped, Scale(dt, gravity));
      }
    }

    method ApplyForce(force: Vec, pos: Vec)
      requires Valid()
      modifies this
      ensures State() == AfterForce(old(State()), force, pos)
    {
      velocity := Add(velocity, Div(force, mass));
      rotation := rotation + (force.y * (pos.x - position.x) - force.x * (pos.y - position.y)) / moment;
    }

    method ApplyContactForce(penetration: real, normal: Vec)
      modifies this
      ensures State() == AfterContactForce(old(State()), penetration, normal)
    {
      position := Add(position, Scale(penetration, normal));
    }

    method ResolveCollision(other: RigidBody, contact: Vec, direction: Option<Vec>)
      requires other != this && Valid() && other.Valid()
      modifies this, other
      ensures (State(), other.State()) == Resolved(old(State()), old(other.State()), contact, direction)
    {
      var a0, b0 := State(), other.State();
      if awake || other.awake {
        awake := true;
        other.awake := true;
      }
      hasContact := true;
      var woke := a0.awake || b0.awake;
      assert State() == a0.(awake := woke, hasContact := true) && other.State() == b0.(awake := woke);
      var axis := Axis(a0, b0, direction);
      var r1, r2 := Lever(a0, contact, axis), Lever(b0, contact, axis);
      assert Resolved(a0, b0, contact, direction) == Exchange(a0, b0, contact, axis, r1, r2);
      if Closing(a0, b0, axis, r1, r2) {
        var force := Scale(ImpulseFactor(a0, b0, axis, r1, r2), axis);
        ApplyImpulse(other, force, contact);
      }
    }

    /** The impulse exchange of ResolveCollision: -force on this body and force on the other, both at contact. */
    method ApplyImpulse(other: RigidBody, force: Vec, contact: Vec)
      requires other != this && Valid() && other.Valid()
      modifies this, other
      ensures State() == AfterForce(old(State()), Neg(force), contact)
      ensures other.State() == AfterForce(old(other.State()), force, contact)
    {
      ApplyForce(Neg(force), contact);
      other.ApplyForce(force, contact);
    }
  }
}
