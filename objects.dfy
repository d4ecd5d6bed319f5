/**
 * PhysicsObject: the type tag every shape carries, the double dispatch of CheckCollisions,
 * and the defaults of getEnergy and IsInside. The dispatch is modelled twice: on values,
 * as the pair of states a collision produces (Collide), and on the heap, as a method over the
 * shape objects that is proved to have exactly that effect.
 */
module Objects {
  import opened Vectors
  import opened RigidBodies
  import opened CircleContacts
  import opened BoxContacts
  import opened Shapes
  import opened Springs

  /** PhysicsObject::PhysicsObjectType */
  datatype ObjectType = PLANE | CIRCLE | BOX | SPRING

  /** The three collision handlers every PhysicsObject provides. */
  datatype Handler = WithPlane | WithCircle | WithBox

  /**
   * The if/else chain of CheckCollisions on the other object's tag: one handler for each
   * shape tag, none for a spring, so at most one handler runs per call.
   */
  function Dispatch(t: ObjectType): (h: Option<Handler>)
    ensures h == Some(WithPlane) <==> t == PLANE
    ensures h == Some(WithCircle) <==> t == CIRCLE
    ensures h == Some(WithBox) <==> t == BOX
    ensures h.None? <==> t == SPRING
  {
    match t
    case PLANE => Some(WithPlane)
    case CIRCLE => Some(WithCircle)
    case BOX => Some(WithBox)
    case SPRING => None
  }

  // ---------------------------------------------------------------------------
  // Objects as values
  // ---------------------------------------------------------------------------

  /** What a collision can read or change of an object: a plane's fields, or a shape's body and size. */
  datatype ObjState =
    | PlaneState(origin: Vec, normal: Vec, oneSided: bool)
    | CircleState(body: BodyState, radius: real)
    | BoxState(body: BodyState, width: real, height: real)
    | SpringState

  function Kind(s: ObjState): ObjectType
  {
    match s
    case PlaneState(_, _, _) => PLANE
    case CircleState(_, _) => CIRCLE
    case BoxState(_, _, _) => BOX
    case SpringState => SPRING
  }

  /** A circle's or box's body has positive mass and moment. */
  predicate Sound(s: ObjState)
  {
    (s.CircleState? || s.BoxState?) ==> Massive(s.body)
  }

  /** Two objects the handlers can be run on: sound, and two boxes of positive size. */
  predicate Collidable(a: ObjState, b: ObjState)
  {
    Sound(a) && Sound(b) &&
    (a.BoxState? && b.BoxState? ==> a.width > 0.0 && a.height > 0.0 && b.width > 0.0 && b.height > 0.0)
  }

  /** The object and its size are kept; only a body may change, and never its constitution. */
  predicate Evolves(s: ObjState, t: ObjState)
  {
    match s
    case PlaneState(_, _, _) => t == s
    case CircleState(b, r) => t.CircleState? && t.radius == r && SameConstitution(b, t.body)
    case BoxState(b, w, h) => t.BoxState? && t.width == w && t.height == h && SameConstitution(b, t.body)
    case SpringState => t == s
  }

  /**
   * self->CollideWithPlane(plane) for each kind of self: Circle::CollideWithPlane,
   * Box::CollideWithPlane, and the empty handlers of Plane and Spring.
   */
  function OnPlane(a: ObjState, origin: Vec, normal: Vec, oneSided: bool): (r: ObjState)
    requires Sound(a)
    ensures Evolves(a, r)
    ensures a.PlaneState? || a.SpringState? ==> r == a
  {
    match a
    case CircleState(s, radius) => CircleState(CirclePlane(s, radius, origin, normal, oneSided), radius)
    case BoxState(s, w, h) => BoxState(BoxPlane(s, w, h, origin, normal), w, h)
    case PlaneState(_, _, _) => a
    case SpringState => a
  }

  /**
   * self->CollideWithCircle(circle): a plane hands the work to the circle, a circle resolves
   * circle against circle, a box runs its corner and edge tally, a spring does nothing.
   */
  function OnCircle(a: ObjState, c: BodyState, radius: real): (r: (ObjState, BodyState))
    requires Sound(a) && Massive(c)
    ensures Evolves(a, r.0) && SameConstitution(c, r.1)
    ensures a.PlaneState? || a.SpringState? ==> r.0 == a
    ensures a.SpringState? ==> r.1 == c
  {
    match a
    case PlaneState(origin, normal, oneSided) => (a, CirclePlane(c, radius, origin, normal, oneSided))
    case CircleState(s, ra) =>
      var p := CircleCircle(s, c, ra, radius);
      (CircleState(p.0, ra), p.1)
    case BoxState(s, w, h) =>
      var p := BoxCircle(s, w, h, c, radius);
      (BoxState(p.0, w, h), p.1)
    case SpringState => (a, c)
  }

  /**
   * self->CollideWithBox(box): a plane hands the work to the box, a circle hands it to the box
   * as box->CollideWithCircle(this), a box runs the two-way overlap test, a spring does nothing.
   */
  function OnBox(a: ObjState, b: BodyState, w: real, h: real): (r: (ObjState, BodyState))
    requires Sound(a) && Massive(b)
    requires a.BoxState? ==> a.width > 0.0 && a.height > 0.0 && w > 0.0 && h > 0.0
    ensures Evolves(a, r.0) && SameConstitution(b, r.1)
    ensures a.PlaneState? || a.SpringState? ==> r.0 == a
    ensures a.SpringState? ==> r.1 == b
  {
    match a
    case PlaneState(origin, normal, _) => (a, BoxPlane(b, w, h, origin, normal))
    case CircleState(s, ra) =>
      var p := BoxCircle(b, w, h, s, ra);
      (CircleState(p.1, ra), p.0)
    case BoxState(s, wa, ha) =>
      var p := BoxBox(s, wa, ha, b, w, h);
      (BoxState(p.0, wa, ha), p.1)
    case SpringState => (a, b)
  }

  /** self->CheckCollisions(other): the handler Dispatch picks for other's kind, run on self. */
  function Collide(a: ObjState, b: ObjState): (r: (ObjState, ObjState))
    requires Collidable(a, b)
    ensures Evolves(a, r.0) && Evolves(b, r.1)
  {
    match Dispatch(Kind(b))
    case None => (a, b)
    case Some(WithPlane) => (OnPlane(a, b.origin, b.normal, b.oneSided), b)
    case Some(WithCircle) =>
      var p := OnCircle(a, b.body, b.radius);
      (p.0, CircleState(p.1, b.radius))
    case Some(WithBox) =>
      var p := OnBox(a, b.body, b.width, b.height);
      (p.0, BoxState(p.1, b.width, b.height))
  }

  /** Evolving keeps an object sound, so the next collision can run on the result. */
  lemma EvolvesKeepsSound(s: ObjState, t: ObjState)
    requires Sound(s) && Evolves(s, t)
    ensures Sound(t) && Kind(t) == Kind(s)
  {
  }

  /** Springs collide with nothing, on either side of the call. */
  lemma SpringsDoNotCollide(a: ObjState, b: ObjState)
    requires Collidable(a, b)
    requires a.SpringState? || b.SpringState?
    ensures Collide(a, b) == (a, b)
  {
  }

  /** No collision ever changes a plane's origin, normal or sidedness. */
  lemma PlanesAreNeverChanged(a: ObjState, b: ObjState)
    requires Collidable(a, b)
    ensures a.PlaneState? ==> Collide(a, b).0 == a
    ensures b.PlaneState? ==> Collide(a, b).1 == b
  {
  }

  /**
   * The delegating handlers make a collision between objects of different kinds the same
   * whichever object it is started from: Plane::CollideWithCircle is circle->CollideWithPlane,
   * Plane::CollideWithBox is box->CollideWithPlane, Circle::CollideWithBox is
   * box->CollideWithCircle.
   */
  lemma {:induction false} DelegationSymmetric(a: ObjState, b: ObjState)
    requires Collidable(a, b) && Kind(a) != Kind(b)
    ensures Collidable(b, a)
    ensures Collide(a, b) == (Collide(b, a).1, Collide(b, a).0)
  {
    match a {
      case PlaneState(origin, normal, oneSided) =>
        match b {
          case CircleState(c, r) =>
            assert Collide(a, b) == (a, CircleState(CirclePlane(c, r, origin, normal, oneSided), r));
          case BoxState(s, w, h) =>
            assert Collide(a, b) == (a, BoxState(BoxPlane(s, w, h, origin, normal), w, h));
          case _ =>
        }
      case CircleState(c, r) =>
        match b {
          case BoxState(s, w, h) =>
            var p := BoxCircle(s, w, h, c, r);
            assert Collide(a, b) == (CircleState(p.1, r), BoxState(p.0, w, h));
            assert Collide(b, a) == (BoxState(p.0, w, h), CircleState(p.1, r));
          case _ =>
        }
      case _ =>
    }
  }

  /** Circle against circle and box against box use both bodies; a plane pair is a no-op. */
  lemma SameKindCollisions(a: ObjState, b: ObjState)
    requires Collidable(a, b)
    ensures a.PlaneState? && b.PlaneState? ==> Collide(a, b) == (a, b)
    ensures a.CircleState? && b.CircleState? ==>
      var p := CircleCircle(a.body, b.body, a.radius, b.radius);
      Collide(a, b) == (CircleState(p.0, a.radius), CircleState(p.1, b.radius))
    ensures a.BoxState? && b.BoxState? ==>
      var p := BoxBox(a.body, a.width, a.height, b.body, b.width, b.height);
      Collide(a, b) == (BoxState(p.0, a.width, a.height), BoxState(p.1, b.width, b.height))
  {
    match b {
      case CircleState(c, r) =>
        if a.CircleState? {
          var q := OnCircle(a, c, r);
          assert Collide(a, b) == (q.0, CircleState(q.1, r));
        }
      case BoxState(s, w, h) =>
        if a.BoxState? {
          var q := OnBox(a, s, w, h);
          assert Collide(a, b) == (q.0, BoxState(q.1, w, h));
        }
      case _ =>
    }
  }

  // ---------------------------------------------------------------------------
  // The PhysicsObject defaults
  // ---------------------------------------------------------------------------

  /**
   * obj->getEnergy(k, g, r): RigidBody::getEnergy for circles and boxes, and the default, which
   * sets the three parts to zero and returns zero, for planes and springs.
   */
  function ObjectEnergy(o: ObjState, gravity: Vec): (e: EnergyReport)
    ensures e.total == e.kinetic + e.potential + e.rotational
    ensures o.PlaneState? || o.SpringState? ==> e == EnergyReport(0.0, 0.0, 0.0, 0.0)
    ensures o.CircleState? || o.BoxState? ==> e.potential == -o.body.mass * Dot(o.body.position, gravity)
    ensures Sound(o) ==> e.kinetic >= 0.0 && e.rotational >= 0.0
  {
    match o
    case CircleState(s, _) => Energy(s, gravity)
    case BoxState(s, _, _) => Energy(s, gravity)
    case _ => EnergyReport(0.0, 0.0, 0.0, 0.0)
  }

  /** obj->IsInside(pt): the shape's own test for circles and boxes, the default false otherwise. */
  function ObjectIsInside(o: ObjState, pt: Vec): (r: bool)
    ensures r ==> o.CircleState? || o.BoxState?
    ensures o.CircleState? ==> (r <==> Dot(Sub(pt, o.body.position), Sub(pt, o.body.position)) < o.radius * o.radius)
    ensures o.BoxState? ==>
      (r <==> Abs(ToLocal(o.body, pt).x) < o.width * 0.5 && Abs(ToLocal(o.body, pt).y) < o.height * 0.5)
  {
    match o
    case CircleState(s, radius) => InsideCircle(s.position, radius, pt)
    case BoxState(s, w, h) => InsideBox(s, w, h, pt)
    case _ => false
  }

  /** A circle of positive radius contains its centre; a box of positive size contains its centre. */
  lemma CentreIsInside(o: ObjState)
    requires o.CircleState? ==> o.radius > 0.0
    requires o.BoxState? ==> o.width > 0.0 && o.height > 0.0
    ensures o.CircleState? || o.BoxState? ==> ObjectIsInside(o, o.body.position)
  {
    if o.CircleState? {
      SquarePositive(o.radius);
      assert Sub(o.body.position, o.body.position) == Zero;
    } else if o.BoxState? {
      assert ToLocal(o.body, o.body.position) == Zero;
    }
  }

  // ---------------------------------------------------------------------------
  // Objects on the heap
  // ---------------------------------------------------------------------------

  /** A PhysicsObject pointer: one of the four concrete classes. */
  datatype PhysicsObject =
    | PlaneObject(plane: Plane)
    | CircleObject(circle: Circle)
    | BoxObject(box: Box)
    | SpringObject(spring: Spring)

  /** oType, as each constructor sets it. */
  function TypeOf(o: PhysicsObject): ObjectType
  {
    match o
    case PlaneObject(_) => PLANE
    case CircleObject(_) => CIRCLE
    case BoxObject(_) => BOX
    case SpringObject(_) => SPRING
  }

  /** The objects StateOf reads. */
  function Footprint(o: PhysicsObject): set<object>
  {
    match o
    case PlaneObject(p) => {p}
    case CircleObject(c) => {c.body}
    case BoxObject(b) => {b.body}
    case SpringObject(_) => {}
  }

  /** The objects a collision handler may change: the body of a circle or box. */
  function Bodies(o: PhysicsObject): set<object>
  {
    match o
    case CircleObject(c) => {c.body}
    case BoxObject(b) => {b.body}
    case _ => {}
  }

  function StateOf(o: PhysicsObject): (s: ObjState)
    reads Footprint(o)
    ensures Kind(s) == TypeOf(o)
  {
    match o
    case PlaneObject(p) => PlaneState(p.origin, p.normal, p.oneSided)
    case CircleObject(c) => CircleState(c.body.State(), c.radius)
    case BoxObject(b) => BoxState(b.body.State(), b.width, b.height)
    case SpringObject(_) => SpringState
  }

  /** self->CollideWithPlane(plane), through the virtual call on self's class. */
  method CollideWithPlane(self: PhysicsObject, plane: Plane)
    requires Sound(StateOf(self))
    modifies Bodies(self)
    ensures StateOf(self) == OnPlane(old(StateOf(self)), plane.origin, plane.normal, plane.oneSided)
  {
    match self
    case PlaneObject(p) => p.CollideWithPlane(plane);
    case CircleObject(c) => c.CollideWithPlane(plane);
    case BoxObject(b) => b.CollideWithPlane(plane);
    case SpringObject(s) => s.CollideWithPlane(plane);
  }

  /** self->CollideWithCircle(circle), through the virtual call on self's class. */
  method CollideWithCircle(self: PhysicsObject, circle: Circle)
    requires Sound(StateOf(self)) && circle.body.Valid() && circle.body !in Bodies(self)
    modifies Bodies(self), circle.body
    ensures (StateOf(self), circle.body.State())
         == OnCircle(old(StateOf(self)), old(circle.body.State()), circle.radius)
  {
    match self
    case PlaneObject(p) => p.CollideWithCircle(circle);
    case CircleObject(c) => c.CollideWithCircle(circle);
    case BoxObject(b) => b.CollideWithCircle(circle);
    case SpringObject(s) => s.CollideWithCircle(circle);
  }

  /** self->CollideWithBox(box), through the virtual call on self's class. */
  method CollideWithBox(self: PhysicsObject, box: Box)
    requires Sound(StateOf(self)) && box.body.Valid() && box.body !in Bodies(self)
    requires self.BoxObject? ==> self.box.width > 0.0 && self.box.height > 0.0 && box.width > 0.0 && box.height > 0.0
    modifies Bodies(self), box.body
    ensures (StateOf(self), box.body.State())
         == OnBox(old(StateOf(self)), old(box.body.State()), box.width, box.height)
  {
    match self
    case PlaneObject(p) => p.CollideWithBox(box);
    case CircleObject(c) => c.CollideWithBox(box);
    case BoxObject(b) => b.CollideWithBox(box);
    case SpringObject(s) => s.CollideWithBox(box);
  }

  /**
   * PhysicsObject::CheckCollisions: the handler chosen by other's tag, run on self. The two
   * objects must not share a body, as the application never checks an object against itself.
   */
  method CheckCollisions(self: PhysicsObject, other: PhysicsObject)
    requires Collidable(StateOf(self), StateOf(other))
    requires Bodies(self) !! Bodies(other)
    modifies Bodies(self), Bodies(other)
    ensures (StateOf(self), StateOf(other)) == Collide(old(StateOf(self)), old(StateOf(other)))
  {
    match Dispatch(TypeOf(other))
    case None =>
    case Some(WithPlane) => CollideWithPlane(self, other.plane);
    case Some(WithCircle) => CollideWithCircle(self, other.circle);
    case Some(WithBox) => CollideWithBox(self, other.box);
  }
}
