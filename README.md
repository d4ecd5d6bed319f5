# Physics2D collision and impulse core, in Dafny

This project models the collision and impulse core of Physics2D, a small 2D rigid-body simulator written in C++. It covers these parts:

- **Rigid bodies.** The state a rigid body carries and the operations on it: the per-tick integrator with its wake and sleep rules, force application, positional correction, the two-body impulse resolver with rotational coupling, the energy report and the local-to-world transform.
- **Contacts per shape pair:**
  - circle against plane, one-sided and two-sided;
  - circle against circle;
  - box against plane: corner selection, averaged contact and penetration;
  - box against circle: a corner and edge tally that picks an edge normal;
  - box against box: the two-way separating-axis test.
- **Springs.** The damped spring between two bodies.
- **Dispatch.** The type-tag double dispatch of `PhysicsObject::CheckCollisions`, with the PhysicsObject defaults for energy and point containment.

All arithmetic is over `real`. Vectors are pairs of reals (`Vectors.Vec`).

Each operation appears twice:

- as a pure function on a value. `RigidBodies.BodyState` is one body's fields; `Objects.ObjState` is one object of any kind.
- as a method of a class with the source's fields, proved to change them exactly as that function says. The classes are `RigidBodies.RigidBody`, `Shapes.Plane`, `Shapes.Circle`, `Shapes.Box` and `Springs.Spring`.

The properties are lemmas about the functions. They include:

- no impulse when bodies separate;
- equal and opposite impulses, which conserve linear and angular momentum;
- the restitution law for the contact-point speed;
- the separating-axis early exits;
- the minimum overlap with its strict tie order;
- the extents found over the corners;
- the plane rebound;
- the spring's Hooke and damping terms;
- the delegation symmetry of the collision handlers.

Module layout, leaves first:

- `vectors.dfy` (Vectors)
- `rigid_body.dfy` (RigidBodies)
- `circle_contacts.dfy` (CircleContacts)
- `box_contacts.dfy` (BoxContacts)
- `shapes.dfy` (Shapes)
- `spring.dfy` (Springs)
- `objects.dfy` (Objects)

Inheritance from `RigidBody` is written as composition: a `Circle` or `Box` holds `const body: RigidBody`. The impulse resolver of the source computes the second body's lever arm with the wrong sign. The model keeps that version as `ResolvedAsWritten` and proves what goes wrong with it. The corrected `Resolved` is the resolver of the class method `RigidBody.ResolveCollision`, and of circle against circle, box against circle and box against box (see Findings). For circle pairs the two are proved equal. For box contacts they are proved equal whenever the second body does not spin; "## Left out" names the members that differ from the source otherwise.

## Model

| member | source | states |
|---|---|---|
| RigidBodies.SleepTestBySquares | OpenGL/RigidBody.cpp:32 | for any non-negative length of v, the length is below 0.8 exactly when the squared length is below 0.64, so the squared test is the source's sleep test |
| RigidBodies.Integrated | OpenGL/RigidBody.cpp:18-47 | one Update. An awake flag is set if hasContact was false on entry. A fixed or sleeping body keeps its position, velocity, angle and rotation. An awake free body: angle and position advance with the old rotation and velocity; velocity and rotation are damped by 0.99; the sleep test uses the damped values; gravity*dt is added afterwards. The axes are rebuilt from the angle, hasContact ends false, and mass, moment, restitution and fixed never change |
| RigidBodies.FixedBodyStaysPut | OpenGL/RigidBody.cpp:23 | over any number of Update ticks, a fixed body keeps its position, velocity, angle and rotation and stays fixed |
| RigidBodies.AfterForce | OpenGL/RigidBody.cpp:49-53 | ApplyForce changes only velocity and rotation: mass times the velocity change is the force, and moment times the rotation change is cross(pos - position, force). A force at the centre leaves the rotation unchanged |
| RigidBodies.NoForceNoChange | OpenGL/RigidBody.cpp:49-53 | a zero force leaves the body exactly as it was |
| RigidBodies.AfterContactForce | OpenGL/RigidBody.cpp:55-58 | ApplyContactForce moves the position by penetration * normal and changes nothing else |
| RigidBodies.AfterForceAngularMomentum | OpenGL/RigidBody.cpp:49-53 | a force at pos changes the angular momentum about the origin by cross(pos, force) |
| RigidBodies.EffectiveMass | OpenGL/RigidBody.cpp:91-92 | the effective mass at a lever arm is positive, and its reciprocal is 1/mass + r²/moment |
| RigidBodies.CompliancePositive | OpenGL/RigidBody.cpp:99 | the denominator 1/m1 + r1²/I1 + 1/m2 + r2²/I2, scaled by the axis, is positive for a non-zero axis |
| RigidBodies.ImpulseFactor | OpenGL/RigidBody.cpp:99 | the impulse magnitude k satisfies k * compliance == (1 + restitution) * (v1 - v2) |
| RigidBodies.Impulse | OpenGL/RigidBody.cpp:99 | the scalar quotient (1 + e)(v1 - v2)/c, characterised by k * c == (1 + e)(v1 - v2) |
| RigidBodies.ReducedMassForm | OpenGL/RigidBody.cpp:91-94 | the impulse factor equals (1 + e) * mass1*mass2/(mass1 + mass2) * (v1 - v2) / |axis|², the source's `force`. So the two force formulas `force` and `force2` agree |
| RigidBodies.ComplianceByEffectiveMasses | OpenGL/RigidBody.cpp:91-92 | the compliance is |axis|² times 1/mass1 + 1/mass2 for the two effective masses |
| RigidBodies.Exchange | OpenGL/RigidBody.cpp:66-108 | the resolver for given lever arms: masses, moments, restitution, fixed, positions and angles of both bodies are unchanged |
| RigidBodies.ExchangeFlags | OpenGL/RigidBody.cpp:66-72 | both bodies end awake if either was; this body's hasContact becomes true and the other's keeps its value; the local axes are untouched |
| RigidBodies.SeparatingGetsNoImpulse | OpenGL/RigidBody.cpp:85 | when v1 <= v2, neither body's position, velocity, angle or rotation changes |
| RigidBodies.ExchangeClosing | OpenGL/RigidBody.cpp:85-102 | when v1 > v2, this body receives -k*axis and the other +k*axis at the contact, with k the impulse factor |
| RigidBodies.ResolvedAsWritten | OpenGL/RigidBody.cpp:60-108 | ResolveCollision as written, with r2 = dot(contact - other.position, -unitParallel): masses, moments, restitution, fixed, positions and angles of both bodies are kept |
| RigidBodies.Resolved | OpenGL/RigidBody.cpp:60-108 | ResolveCollision with the second lever arm corrected to dot(contact - other.position, unitParallel): masses, moments, restitution, fixed, positions and angles of both bodies are kept |
| RigidBodies.PointSpeedAfterImpulse | OpenGL/RigidBody.cpp:82 | an impulse k*axis at the contact raises that point's speed along the axis by k * (|axis|²/mass + r²/moment) |
| RigidBodies.ImpulsePairClosingSpeed | OpenGL/RigidBody.cpp:101-102 | opposite impulses ∓k*axis at the contact lower the closing speed of the contact points by k times the compliance |
| RigidBodies.ExchangeClosingSpeed | OpenGL/RigidBody.cpp:82-102 | with the true lever arms, the closing speed after the exchange is the closing speed before minus impulse factor times compliance |
| RigidBodies.ResolvedRestitution | OpenGL/RigidBody.cpp:85-102 | for approaching bodies, the corrected resolver turns the contact-point closing speed v into -restitution * v |
| RigidBodies.SourceClosingSpeed | OpenGL/RigidBody.cpp:80-83 | the source's v1 - v2 is the true closing speed plus 2 * lever2 * other.rotation |
| RigidBodies.AsWrittenAgreesWithoutSecondSpin | OpenGL/RigidBody.cpp:81 | when the other body does not spin, or its lever arm is zero, the as-written and the corrected resolvers agree |
| RigidBodies.AsWrittenMissesClosing | OpenGL/RigidBody.cpp:81-85 | when the true closing speed is positive but at most -2 * lever2 * other.rotation, the as-written resolver applies no impulse and the bodies keep approaching |
| RigidBodies.MissedClosingExample | OpenGL/RigidBody.cpp:81-83 | concrete bodies whose true closing speed is 2 while the source's v1 - v2 is 0 |
| RigidBodies.OppositeForcesConserveMomentum | OpenGL/RigidBody.cpp:101-102 | -f on one body and +f on the other conserve mass*velocity + other.mass*other.velocity |
| RigidBodies.ExchangeConservesMomentum | OpenGL/RigidBody.cpp:94-102 | the resolver conserves total linear momentum, closing or not |
| RigidBodies.OppositeForcesConserveAngularMomentum | OpenGL/RigidBody.cpp:101-102 | opposite forces at the same contact point conserve total angular momentum |
| RigidBodies.ExchangeConservesAngularMomentum | OpenGL/RigidBody.cpp:101-102 | the resolver conserves total angular momentum |
| RigidBodies.ResolvedConserves | OpenGL/RigidBody.cpp:60-108 | the corrected resolver conserves linear and angular momentum |
| RigidBodies.Energy | OpenGL/RigidBody.cpp:113-119 | getEnergy: total == g + k + r with g == -mass * dot(position, gravity). k and r are non-negative for positive mass and moment, and zero exactly when the velocity and the rotation are zero |
| RigidBodies.KineticEnergy | OpenGL/RigidBody.cpp:116 | ½·mass·|v|² is non-negative and zero exactly for v == 0 when mass > 0 |
| RigidBodies.RotationalEnergy | OpenGL/RigidBody.cpp:117 | ½·moment·rotation² is non-negative and zero exactly for rotation == 0 when moment > 0 |
| RigidBodies.ToWorld | OpenGL/RigidBody.cpp:121-124 | the local origin maps to the centre of mass; with ToLocal it forms the round trip of WorldLocalRoundTrip |
| RigidBodies.WorldLocalRoundTrip | OpenGL/RigidBody.cpp:121-124 | for orthonormal axes, ToWorld followed by the local projection, and the projection followed by ToWorld, are both the identity |
| RigidBodies.RigidBody.constructor | OpenGL/RigidBody.cpp:13-16 | the new body has the given fields, rotation 0, restitution 0.95, awake and out of contact |
| RigidBodies.RigidBody.Update | OpenGL/RigidBody.cpp:18-47 | the new state is Integrated of the old one |
| RigidBodies.RigidBody.Move | OpenGL/RigidBody.cpp:23-37 | the integration step for an awake free body, as in Integrated |
| RigidBodies.RigidBody.ApplyForce | OpenGL/RigidBody.cpp:49-53 | the new state is AfterForce of the old one |
| RigidBodies.RigidBody.ApplyContactForce | OpenGL/RigidBody.cpp:55-58 | the new state is AfterContactForce of the old one |
| RigidBodies.RigidBody.ResolveCollision | OpenGL/RigidBody.cpp:60-109 | the new states of both bodies are Resolved of the old ones |
| RigidBodies.RigidBody.ApplyImpulse | OpenGL/RigidBody.cpp:101-102 | this body receives -force and the other +force at the contact |
| CircleContacts.CirclePlane | OpenGL/Circle.cpp:9-35 | only position and velocity change. Without a hit nothing changes. A one-sided hit moves the circle out by (radius - dist) along the normal; a two-sided plane never moves it. The velocity changes by the rebound force over the mass, or not at all |
| CircleContacts.ReboundVelocity | OpenGL/Circle.cpp:19 | the rebound force at the centre adds -(1 + e) * vn * normal to the velocity and keeps the rotation |
| CircleContacts.ReboundReflects | OpenGL/Circle.cpp:19 | for a unit normal the rebound turns the normal speed vn into -restitution * vn and keeps the tangential speed |
| CircleContacts.OneSidedRebound | OpenGL/Circle.cpp:15-21 | a one-sided hit reflects the normal speed times restitution, keeps the tangential speed and the spin, and leaves the circle at distance exactly radius |
| CircleContacts.TwoSidedRebound | OpenGL/Circle.cpp:23-34 | a two-sided hit reflects the normal speed times restitution and keeps the tangential speed, the spin and the position |
| CircleContacts.AtRadiusNoImpulse | OpenGL/Circle.cpp:17 | a circle at exactly distance radius from a one-sided plane is left unchanged |
| CircleContacts.CirclesTouchByLength | OpenGL/Circle.cpp:42-47 | the squared test equals the source's 0 < d < r1 + r2 on the distance d |
| CircleContacts.CircleCircle | OpenGL/Circle.cpp:37-49 | circles that do not touch are unchanged; positions and constitution are always kept |
| CircleContacts.MidpointLevers | OpenGL/Circle.cpp:45-48 | the midpoint of the centres lies on the axis, so both lever arms are zero |
| CircleContacts.CircleCircleAsWritten | OpenGL/Circle.cpp:48 | for circle pairs the as-written resolver equals the corrected one |
| CircleContacts.CircleCircleRestitution | OpenGL/Circle.cpp:47-48 | touching circles approaching along the line of centres bounce with relative speed -restitution times the old one |
| CircleContacts.CoincidentCirclesSkipped | OpenGL/Circle.cpp:47 | circles with equal centres are left unchanged |
| CircleContacts.CircleCircleConserves | OpenGL/Circle.cpp:48 | circle against circle conserves linear and angular momentum |
| CircleContacts.InsideCircle | OpenGL/Circle.cpp:63-67 | the strict test: no point is inside a circle of radius zero, and the centre is inside exactly when the radius is non-zero |
| CircleContacts.InsideCircleByLength | OpenGL/Circle.cpp:63-67 | the squared-distance test is the same as distance < radius |
| BoxContacts.LoopSteps | OpenGL/Box.cpp:26-28 | `for (x = -w/2; x < w; x += w)` visits exactly -w/2 and w/2 when w > 0, and nothing otherwise |
| BoxContacts.Corners | OpenGL/Box.cpp:26-28 | the corner sequence has as many corners as the two loops visit together |
| BoxContacts.CornerAt | OpenGL/Box.cpp:26-31 | pass (i, j) of the nested loops meets corner i*|ys| + j, with coordinates (xs[i], ys[j]) |
| BoxContacts.CornersAtMostFour | OpenGL/Box.cpp:26-28 | at most four corners, and exactly four iff width and height are positive |
| BoxContacts.CornerVelocityIsPointVelocity | OpenGL/Box.cpp:35 | the source's corner velocity is the rigid-body velocity at the corner's world point |
| BoxContacts.PointVelocityAlongNormal | OpenGL/Box.cpp:35 | the speed of a point along the normal is the resolver's PointSpeed with that point's lever arm |
| BoxContacts.PlaneTallyOf | OpenGL/Box.cpp:26-56 | the corner loop counts at most one contact per corner |
| BoxContacts.PlaneTallyOfStep | OpenGL/Box.cpp:26-56 | the tally after one more corner is one more pass of the loop body |
| BoxContacts.BoxPlane | OpenGL/Box.cpp:11-79 | only position, velocity, rotation and hasContact change. A fixed box, or one with no contributing corner, is unchanged. A hit sets hasContact and moves the box back by normal * penetration |
| BoxContacts.PlaneResponse | OpenGL/Box.cpp:59-78 | the response to a hit sets hasContact and moves the position by -normal * penetration |
| BoxContacts.BoxPlaneAtMostFour | OpenGL/Box.cpp:41 | at most four contacts are counted |
| BoxContacts.CentredNoContacts | OpenGL/Box.cpp:38-39 | with the centre on the plane, no corner contributes |
| BoxContacts.PenetrationIsDeepest | OpenGL/Box.cpp:44-53 | without contacts the penetration is 0. On the positive side it is non-positive and at most every contributing corner's distance; on the negative side symmetrically. A hit attains it at some contributing corner |
| BoxContacts.CornerSpeedSplit | OpenGL/Box.cpp:35 | a corner's speed is the normal speed of the centre plus rotation times the cross of its arm with the normal |
| BoxContacts.SumFormStep | OpenGL/Box.cpp:41-43 | each pass keeps the summed speeds equal to the speed at the summed contact points |
| BoxContacts.ContactSpeedSum | OpenGL/Box.cpp:26-56 | after the loop, contactV equals count * normal speed plus rotation times the arm of contact - count * position |
| BoxContacts.CollisionSpeedAtAverage | OpenGL/Box.cpp:62-67 | the average contactV / numContacts is the normal speed of the average contact point |
| BoxContacts.PlaneImpulseSpeed | OpenGL/Box.cpp:65-75 | for a unit normal, the impulse lowers the average contact point's normal speed by (1 + e) * collisionV |
| BoxContacts.BoxPlaneRestitution | OpenGL/Box.cpp:59-78 | after a hit, the normal speed at the moved average contact point is -restitution times the old one |
| BoxContacts.CornerDistanceShift | OpenGL/Box.cpp:76 | moving the box by -normal * pen lowers every corner's distance by pen |
| BoxContacts.BoxPlaneCorrection | OpenGL/Box.cpp:44-53 | after a hit the contributing corners are on the plane or on the centre's side, and one of them lies exactly on the plane |
| BoxContacts.CornerInCircleIsInside | OpenGL/Box.cpp:96-98 | the corner test of box-vs-circle is Circle::IsInside on the corner's world point |
| BoxContacts.CornerTally | OpenGL/Box.cpp:92-104 | the corner pass counts at most one contact per corner and sets no direction |
| BoxContacts.CornerTallyStep | OpenGL/Box.cpp:92-104 | the tally after one more corner is one more pass of the loop body |
| BoxContacts.EdgeDirection | OpenGL/Box.cpp:108-141 | the right and left tests exclude each other, and so do top and bottom. One contact is added per axis that hits. A top or bottom hit supplies the direction (±localY); otherwise a right or left hit supplies ±localX; with no edge hit nothing changes |
| BoxContacts.BoxCircleContactIsAverage | OpenGL/Box.cpp:146 | the contact is the world point of the average local contact |
| BoxContacts.BoxCircle | OpenGL/Box.cpp:81-151 | with no corner or edge contact nothing changes; positions and constitution are always kept |
| BoxContacts.BoxCircleAsWritten | OpenGL/Box.cpp:143-148 | for a circle that does not spin, BoxCircle equals Box::CollideWithCircle with the source's own resolver |
| BoxContacts.BoxCircleAtMostSix | OpenGL/Box.cpp:92-141 | at most six contacts, four corners and two edges |
| BoxContacts.BoxCircleDirection | OpenGL/Box.cpp:108-139 | the direction passed on is absent or one of ±localX, ±localY |
| BoxContacts.BoxCircleConserves | OpenGL/Box.cpp:143-148 | box against circle conserves linear and angular momentum |
| BoxContacts.ExtentsOf | OpenGL/Box.cpp:180-194 | over a non-empty corner sequence, xmin <= xmax and ymin <= ymax |
| BoxContacts.ExtentsOfStep | OpenGL/Box.cpp:187-192 | the first corner sets all four extents, and each later corner extends them |
| BoxContacts.ExtentsBound | OpenGL/Box.cpp:180-194 | every corner's local coordinates lie within the extents |
| BoxContacts.ExtendSelect | OpenGL/Box.cpp:187-190 | one pass replaces an extent and its position exactly when the new coordinate is strictly beyond it |
| BoxContacts.ExtentNotExceeded | OpenGL/Box.cpp:180-194 | no corner is strictly beyond any extent |
| BoxContacts.ExtentsAttained | OpenGL/Box.cpp:180-194 | each extent is attained by a corner whose world point is the recorded *Pos, and every earlier corner is strictly inside it, so the first corner attaining it wins |
| BoxContacts.CheckOverlap | OpenGL/Box.cpp:170-251 | the running overlap never grows, and contact and normal are replaced only together with a strictly smaller overlap |
| BoxContacts.OverlapExits | OpenGL/Box.cpp:198-238 | CheckOverlap returns true exactly when none of xmax < -w2, xmin > w2, ymax < -h2, ymin > h2 holds |
| BoxContacts.OverlapMinimum | OpenGL/Box.cpp:202-247 | on a true result the overlap is at most its incoming value and the four candidate overlaps. contact and normal come from the winning axis: xmaxPos/-localX, xminPos/localX, ymaxPos/-localY or yminPos/localY. The earliest axis wins ties, and the incoming values stay when none is strictly smaller |
| BoxContacts.SeparatedMeansBeyond | OpenGL/Box.cpp:198-238 | the extent tests separate exactly when all corners lie strictly beyond one edge |
| BoxContacts.BoxBox | OpenGL/Box.cpp:153-167 | without the shared overlap nothing changes; positions and constitution are always kept |
| BoxContacts.BoxBoxAsWritten | OpenGL/Box.cpp:162-165 | when the second box does not spin, BoxBox equals Box::CollideWithBox with the source's own resolver |
| BoxContacts.BoxBoxSeparation | OpenGL/Box.cpp:162 | a collision is resolved exactly when neither box finds all the other's corners beyond one of its edges |
| BoxContacts.SharedOverlapMinimum | OpenGL/Box.cpp:157-162 | the shared overlap is at most FLT_MAX and every one of the eight candidates, and equals FLT_MAX or one of them |
| BoxContacts.SharedOverlapNormal | OpenGL/Box.cpp:157-164 | the normal passed to the resolver is one of the eight axes ±localX, ±localY of either box, or the initial zero vector with the overlap still FLT_MAX |
| BoxContacts.BoxBoxConserves | OpenGL/Box.cpp:164 | box against box conserves linear and angular momentum |
| BoxContacts.InsideBox | OpenGL/Box.cpp:449-454 | the strict test: no point is inside a box of zero width or height, and the centre is inside exactly when both sizes are positive |
| BoxContacts.InsideBoxLocal | OpenGL/Box.cpp:449-454 | for orthonormal axes, a point is inside iff its local coordinates satisfy abs(x) < width/2 and abs(y) < height/2 |
| BoxContacts.CornersNotInside | OpenGL/Box.cpp:449-454 | the strict test excludes the box's own corners |
| Shapes.Plane.constructor | OpenGL/Plane.h:8 | origin and normal as given, and one-sided |
| Shapes.Plane.Update | OpenGL/Plane.cpp:8-10 | an empty frame: the plane is unchanged |
| Shapes.Plane.CollideWithPlane | OpenGL/Plane.h:13 | an empty frame: neither plane changes |
| Shapes.Plane.CollideWithCircle | OpenGL/Plane.cpp:21-24 | exactly the effect of circle->CollideWithPlane(this); the plane is not in the frame |
| Shapes.Plane.CollideWithBox | OpenGL/Plane.cpp:26-29 | exactly the effect of box->CollideWithPlane(this); the plane is not in the frame |
| Shapes.CircleMass | OpenGL/Circle.h:15 | 3.14159 * r² * density is positive for r != 0 and positive density, and zero for r or density zero |
| Shapes.CircleMoment | OpenGL/Circle.h:18 | ½ * mass * radius² is positive for positive mass and non-zero radius, and zero for zero radius |
| Shapes.Circle.constructor | OpenGL/Circle.h:9-21 | the body starts with mass CircleMass, moment CircleMoment, rotation 0, restitution 0.95, awake, not fixed; radius == r |
| Shapes.Circle.CollideWithPlane | OpenGL/Circle.cpp:9-35 | the body's new state is CirclePlane of its old one |
| Shapes.Circle.CollideWithCircle | OpenGL/Circle.cpp:37-49 | the two bodies' new states are CircleCircle of the old ones |
| Shapes.Circle.IsInside | OpenGL/Circle.cpp:63-67 | InsideCircle against the body's current centre; the centre itself is inside exactly when the radius is non-zero |
| Shapes.Circle.CollideWithBox | OpenGL/Circle.cpp:51-54 | exactly the effect of box->CollideWithCircle(this) |
| Shapes.BoxMass | OpenGL/Box.h:14 | density * width * height is positive for positive sizes and density |
| Shapes.BoxMoment | OpenGL/Box.h:16 | (1/12) * mass * (w² + h²) is positive for positive mass and a non-zero size |
| Shapes.BoxFrameOrthonormal | OpenGL/Box.h:22-25 | (cos a, sin a) and (-sin a, cos a) form an orthonormal frame |
| Shapes.Box.constructor | OpenGL/Box.h:8-26 | the body starts with BoxMass, BoxMoment, rotation 0, restitution 0.95, awake, fixed == fx, and axes (cos a, sin a), (-sin a, cos a) |
| Shapes.SourcePlaneImpulse | OpenGL/Box.cpp:62-75 | the source's acceleration * mass0 is PlaneImpulse |
| Shapes.PlaneCornerTerms | OpenGL/Box.cpp:31-35 | the source's corner point, distance and velocity into the plane are ToWorld, CornerDistance and CornerSpeed |
| Shapes.TallyPlaneCorner | OpenGL/Box.cpp:31-54 | the loop body of box-vs-plane is one PlaneStep |
| Shapes.TallyCircleCorner | OpenGL/Box.cpp:96-102 | the loop body of the box-vs-circle corner pass is one CircleStep |
| Shapes.EdgeContacts | OpenGL/Box.cpp:111-141 | the four edge tests give EdgeTally |
| Shapes.ExtendCorner | OpenGL/Box.cpp:184-192 | the first corner sets the extents, a later corner extends them |
| Shapes.Box.PlaneContacts | OpenGL/Box.cpp:16-56 | the nested corner loop returns BoxPlaneTally |
| Shapes.Box.CollideWithPlane | OpenGL/Box.cpp:11-79 | the body's new state is BoxPlane of its old one |
| Shapes.Box.PushBack | OpenGL/Box.cpp:59-78 | the body's new state is PlaneResponse of its old one |
| Shapes.Box.CircleCorners | OpenGL/Box.cpp:83-104 | the corner loop returns CornerTally over the four corners |
| Shapes.Box.CollideWithCircle | OpenGL/Box.cpp:81-151 | the two bodies' new states are BoxCircle of the old ones |
| Shapes.Box.CornerExtents | OpenGL/Box.cpp:173-194 | the loop returns the extents ExtentsIn of the other box's corners |
| Shapes.Box.CheckOverlap | OpenGL/Box.cpp:170-251 | the result, overlap, contact and normal are those of BoxContacts.CheckOverlap |
| Shapes.Box.IsInside | OpenGL/Box.cpp:449-454 | InsideBox against the body's current state; the centre itself is inside exactly when width and height are positive |
| Shapes.Box.CollideWithBox | OpenGL/Box.cpp:153-167 | the two bodies' new states are BoxBox of the old ones |
| Springs.SpringStep | OpenGL/Spring.cpp:7-23 | only the two bodies' velocities and rotations change |
| Springs.SpringSelf | OpenGL/Spring.cpp:21-22 | a spring between two points of one body changes only that body's velocity and rotation |
| Springs.SpringForceParts | OpenGL/Spring.cpp:18 | force = dist * k * (restLength - len) - 0.1 * dv. Its cross with dist is -0.1 * cross(dist, dv), and its component along dist is the Hooke term minus the damping term. Without relative velocity it is the Hooke term alone |
| Springs.HookeAlongSeparation | OpenGL/Spring.cpp:18 | with equal velocities the force is (restoringForce * (restLength - len)) times the unnormalised dist |
| Springs.SpringPullsWhenStretched | OpenGL/Spring.cpp:18 | for a positive constant, a stretched spring with equal velocities pulls the bodies together (force against dist) |
| Springs.SpringPushesWhenCompressed | OpenGL/Spring.cpp:18 | a compressed spring with equal velocities pushes the bodies apart |
| Springs.SpringSlackAtRestLength | OpenGL/Spring.cpp:18 | at rest length with equal velocities the force is zero |
| Springs.SpringAtRest | OpenGL/Spring.cpp:18-22 | at rest length with equal velocities neither body changes at all |
| Springs.NoImpulseAtRest | OpenGL/Spring.cpp:18-22 | at rest length with equal velocities both impulses are zero |
| Springs.SpringConservesMomentum | OpenGL/Spring.cpp:21-22 | -force*dt on body1 and +force*dt on body2 conserve total linear momentum |
| Springs.ForcesAtTwoPointsAngularMomentum | OpenGL/Spring.cpp:21-22 | opposite forces at p and q change total angular momentum by cross(q - p, f) |
| Springs.SpringAngularMomentum | OpenGL/Spring.cpp:11-22 | the spring changes total angular momentum by -dt * 0.1 * cross(dist, dv); the Hooke part exerts no net torque |
| Springs.SpringConservesAngularMomentum | OpenGL/Spring.cpp:15-22 | with equal velocities the spring conserves total angular momentum |
| Springs.CancellingImpulses | OpenGL/Spring.cpp:21-22 | -f then +f on one body at points whose offset is parallel to f leave it unchanged |
| Springs.SpringOnOneBodyInert | OpenGL/Spring.cpp:21-22 | a spring with both ends on the same body leaves it unchanged |
| Springs.Spring.constructor | OpenGL/Spring.h:8-9 | bodies, rest length, restoring force and contacts as given |
| Springs.Spring.CollideWithPlane | OpenGL/Spring.h:16 | an empty frame: the spring, its bodies and the plane are unchanged |
| Springs.Spring.CollideWithCircle | OpenGL/Spring.h:17 | an empty frame: the spring, its bodies and the circle are unchanged |
| Springs.Spring.CollideWithBox | OpenGL/Spring.h:18 | an empty frame: the spring, its bodies and the box are unchanged |
| Springs.Spring.Update | OpenGL/Spring.cpp:7-23 | for distinct bodies the new states are SpringStep of the old ones, and for one body SpringSelf. The spring's own fields are outside the frame |
| Objects.Dispatch | OpenGL/PhysicsObject.cpp:6-14 | PLANE selects CollideWithPlane, CIRCLE CollideWithCircle and BOX CollideWithBox; SPRING selects nothing; one handler at most |
| Objects.OnPlane | OpenGL/Plane.h:13 | a plane's or spring's CollideWithPlane changes nothing; other objects keep their kind, size and constitution |
| Objects.OnCircle | OpenGL/Plane.cpp:21-24 | the plane and the spring stay unchanged, a spring leaves the circle unchanged, and kind, size and constitution are kept |
| Objects.OnBox | OpenGL/Circle.cpp:51-54 | the plane and the spring stay unchanged, a spring leaves the box unchanged, and kind, size and constitution are kept |
| Objects.Collide | OpenGL/PhysicsObject.cpp:6-14 | CheckCollisions on values: both objects keep their kind, size and constitution |
| Objects.EvolvesKeepsSound | OpenGL/PhysicsObject.cpp:6-14 | after a collision every body still has positive mass and moment |
| Objects.SpringsDoNotCollide | OpenGL/PhysicsObject.cpp:8-13 | a pair with a spring on either side is left unchanged |
| Objects.PlanesAreNeverChanged | OpenGL/Plane.cpp:21-29 | no collision changes a plane's origin, normal or sidedness |
| Objects.DelegationSymmetric | OpenGL/Circle.cpp:51-54 | for objects of different kinds, a.CheckCollisions(b) has the same effect as b.CheckCollisions(a) |
| Objects.SameKindCollisions | OpenGL/PhysicsObject.cpp:8-13 | a plane pair is a no-op, and a circle pair and a box pair run CircleCircle and BoxBox on both bodies |
| Objects.ObjectEnergy | OpenGL/PhysicsObject.h:29 | planes and springs report zero in all three parts. Circles and boxes report RigidBody::getEnergy, whose parts sum to the total, with non-negative kinetic and rotational parts |
| Objects.ObjectIsInside | OpenGL/PhysicsObject.h:31 | planes and springs contain no point; circles use the strict squared-distance test, boxes the strict local-coordinate test |
| Objects.CentreIsInside | OpenGL/Circle.cpp:63-67 | a circle of positive radius contains its centre, and so does a box of positive size |
| Objects.StateOf | OpenGL/PhysicsObject.h:33 | the kind of an object's state is its oType |
| Objects.CollideWithPlane | OpenGL/PhysicsObject.h:25 | the virtual call has the effect of OnPlane for every concrete class |
| Objects.CollideWithCircle | OpenGL/PhysicsObject.h:26 | the virtual call has the effect of OnCircle for every concrete class |
| Objects.CollideWithBox | OpenGL/PhysicsObject.h:27 | the virtual call has the effect of OnBox for every concrete class |
| Objects.CheckCollisions | OpenGL/PhysicsObject.cpp:6-14 | the new states of both objects are Collide of the old ones |

## Left out

- RigidBodies.RigidBody.ResolveCollision: ensures the corrected resolver `Resolved`, not the source's `ResolvedAsWritten` (OpenGL/RigidBody.cpp:81). The two differ only when the other body spins and its lever arm is non-zero. For example: this body at the origin moving at (1, 0), the other at (2, 0) spinning at 1, unit masses and moments, contact (1, 1), no direction. The source applies no impulse there, and the model applies one (RigidBodies.AsWrittenMissesClosing). RigidBodies.AsWrittenAgreesWithoutSecondSpin proves the two equal in every other case.
- BoxContacts.BoxCircle: resolves with `Resolved` where Box.cpp:147 runs the source's resolver. It differs from the source only for a spinning circle whose lever arm about the chosen axis is non-zero, typically a corner contact or an edge normal off the line of centres. BoxContacts.BoxCircleAsWritten proves it equal to the source for a circle that does not spin.
- BoxContacts.BoxBox: resolves with `Resolved` where Box.cpp:164 runs the source's resolver. It differs from the source only when the second box spins and the shared contact has a non-zero lever arm about the shared normal. BoxContacts.BoxBoxAsWritten proves it equal to the source when the second box does not spin.
- Shapes.Box.CollideWithCircle and Shapes.Box.CollideWithBox: ensure BoxCircle and BoxBox, so they carry the same substitution. So do Objects.OnCircle, Objects.OnBox, Objects.Collide and Objects.CheckCollisions for box contacts.
- **Rendering and diagnostics are not modelled.** This covers every `Draw` method, the Gizmos calls, `PhysicsApplication::singleStep`, and the kinetic-energy check with its `printf` inside ResolveCollision (OpenGL/RigidBody.cpp:62-64, 87, 96-107). None of them affects the simulated state.
- **The application layer is not part of this model.** This covers the tick loop of PhysicsApplication.cpp (lifespan countdown and removal, the pair loop, the energy sums, input, drawing), plus Model, Camera and LunarLander. Objects.CheckCollisions models one call of the pair loop.
- **The unused CheckBoxCorners, CheckBoxCorners2 and the commented-out box-box variant (OpenGL/Box.cpp:254-435) are not modelled.** Nothing reaches them.
- **Floating point is not modelled:** the model computes over exact reals. FLT_MAX is its exact single-precision value.
- **sqrtf and normalize do not appear.**
  - ResolveCollision works with the unnormalised axis and divides by its squared length. This gives the same impulse for every positive scaling of the axis.
  - A zero axis (glm normalises it to NaN, so `v1 > v2` is false) gives no impulse.
  - The circle-circle, sleep and point tests compare squares; SleepTestBySquares, CirclesTouchByLength and InsideCircleByLength tie each to the source's test on the length.
- **Springs.Spring.Update takes the spring's length as a parameter `len` instead of computing sqrtf.** It requires `len >= 0` and `len * len == |dist|²`.
- **cosf and sinf are a parameter `trig` mapping an angle to (cos, sin).** It is used by RigidBodies.RigidBody.Update and the Box constructor.
- **The static RigidBody::gravity is a parameter.** The ResolveCollision contract is about the resolver, and gravity enters only Update and getEnergy.
- **The direction that box-vs-circle allocates with new and deletes is an Option value.** The leak of the earlier allocations when a later edge overwrites the pointer is not modelled.
- **Default-constructed glm vectors are zero.** This covers the Circle's localX and localY before its first Update, and the contact and normal that CollideWithBox starts from.
- **The tag-only default constructors `Box()`, `Circle()`, `Plane()` and `Spring()` are not modelled.** They leave the other fields uninitialised. So are `color` and `lifeSpan`.
- **BoxContacts.BoxBox requires positive widths and heights.** So do Shapes.Box.CollideWithBox, Shapes.Box.CheckOverlap, Shapes.Box.CornerExtents and Objects.Collidable for a box pair. With a non-positive size the source's corner loop visits nothing and reads uninitialised extents.
- **Every body that takes part in a collision, a spring or ApplyForce must have positive mass and moment (`Massive`, `RigidBody.Valid`).** The source divides by both.
- **RigidBodies.RigidBody.ResolveCollision and the two-body handlers require two distinct bodies.** The application never checks an object against itself (OpenGL/PhysicsApplication.cpp:99).
- **Fixed bodies can receive impulses:** ResolveCollision and ApplyForce have no guard for them (OpenGL/RigidBody.cpp:49-53, 60-109). The model follows the code here, not the design description of a fixed body as receiving no impulses. Only Box::CollideWithPlane skips fixed boxes.
- **The unused `radius` of Box::CollideWithPlane (OpenGL/Box.cpp:19) is not modelled.**
- **The oType casts of CheckCollisions are not modelled as casts.** An object whose tag disagrees with its class cannot be expressed, because Objects.PhysicsObject carries the class in its constructor.
- **The corner loops are split for the verifier.** The loops of Box::CollideWithPlane, Box::CollideWithCircle and Box::CheckOverlap run their bodies through module-level helper methods (Shapes.TallyPlaneCorner, Shapes.TallyCircleCorner, Shapes.EdgeContacts, Shapes.ExtendCorner) on a snapshot of the body, and the response of Box::CollideWithPlane is its own method, Shapes.Box.PushBack. The order of the computations is the source's.

## Findings

| source | as written | input that shows it | evidently intended | confidence | as-written member | corrected member |
|---|---|---|---|---|---|---|
| OpenGL/RigidBody.cpp:81 | `r2 = dot(contact - other->position, -unitParallel)`, so `v2` adds `r2 * other->rotation` with the lever arm's sign flipped, while `ApplyForce` turns the other body by the true lever arm | body a at the origin moving at (1, 0), not spinning; body b at (2, 0) at rest, spinning at 1; unit masses and moments; contact (1, 1), axis (1, 0). The true closing speed of the contact points is 2, but the source's `v1 - v2` is 0, so no impulse is applied | `r2 = dot(contact - other->position, unitParallel)`, the same lever arm as r1 uses, which makes the impulse reverse the contact-point closing speed times restitution | medium, not executed | RigidBodies.AsWrittenMissesClosing | RigidBodies.ResolvedRestitution |

`RigidBodies.MissedClosingExample` computes the numbers of the counterexample. `RigidBodies.ResolvedAsWritten` is the resolver as written, and `RigidBodies.Resolved` the corrected one; `RigidBodies.RigidBody.ResolveCollision`, `BoxContacts.BoxCircle` and `BoxContacts.BoxBox` use the corrected one; "## Left out" says where they differ from the source. `RigidBodies.AsWrittenAgreesWithoutSecondSpin` shows the two agree whenever the other body does not spin or its lever arm is zero. That covers every circle-circle contact (`CircleContacts.CircleCircleAsWritten`).
