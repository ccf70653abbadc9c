/** The tree flex/break decision taken on the first frame a (body, tree) pair
    has contacts: choose a contact point, compute the bending stress of the
    impact, and switch to custom handling when it reaches the yield stress. */
module TreeFlex {
  import opened PhysicsCfg

  /** One contact point of a manifold: signed distance (negative when
      penetrating) and the contact positions local to body A and body B. */
  datatype ContactPoint = ContactPoint(distance: real, localPointA: Vec3, localPointB: Vec3)

  /** Index the selection loop of process_tree_collisions settles on when it
      has looked at points 0 .. n-1: it starts at point 0 and moves to a
      later point whose distance is negative and larger than the current
      choice's. */
  function AsWrittenChoice(pts: seq<ContactPoint>, n: nat): (k: nat)
    requires 0 < n <= |pts|
    ensures k < n
    ensures pts[0].distance >= 0.0 ==> k == 0
    ensures pts[0].distance < 0.0 ==> pts[k].distance < 0.0
    ensures pts[0].distance < 0.0 ==>
      forall i :: 0 <= i < n && pts[i].distance < 0.0 ==> pts[i].distance <= pts[k].distance
  {
    if n == 1 then 0
    else
      var k := AsWrittenChoice(pts, n - 1);
      var d := pts[n - 1].distance;
      if d < 0.0 && d > pts[k].distance then n - 1 else k
  }

  /** The selection loop as written. Its running choice is a reference to
      contact point 0, so every "move" copies the new point over point 0:
      the chosen point is returned and `after` is the manifold's point list
      once the loop is done. */
  method SelectContactPointAsWritten(pts: seq<ContactPoint>) returns (chosen: ContactPoint, after: seq<ContactPoint>)
    requires |pts| > 0
    ensures chosen == pts[AsWrittenChoice(pts, |pts|)]
    ensures |after| == |pts| && after[0] == chosen && after[1..] == pts[1..]
  {
    after := pts;
    var i := 1;
    while i < |pts|
      invariant 1 <= i <= |pts|
      invariant |after| == |pts| && after[1..] == pts[1..]
      invariant after[0] == pts[AsWrittenChoice(pts, i)]
    {
      var tmp := after[i];
      if tmp.distance < 0.0 && tmp.distance > after[0].distance {
        after := after[0 := tmp];
      }
      i := i + 1;
    }
    chosen := after[0];
  }

  /** As written, a non-penetrating point 0 masks every penetrating point:
      the choice's distance is then positive and the manifold is cleared. */
  lemma AsWrittenMissesPenetration()
    ensures var pts := [ContactPoint(0.1, ZERO, ZERO), ContactPoint(-0.2, ZERO, ZERO)];
            AsWrittenChoice(pts, 2) == 0 && pts[AsWrittenChoice(pts, 2)].distance > 0.0
  {
  }

  /** As written, among penetrating points the shallowest one is chosen. */
  lemma AsWrittenPicksShallowest()
    ensures var pts := [ContactPoint(-0.5, ZERO, ZERO), ContactPoint(-0.1, ZERO, ZERO)];
            pts[AsWrittenChoice(pts, 2)].distance == -0.1
  {
  }

  /** The deepest-penetrating contact point: the smallest distance, first
      such index. */
  method SelectDeepestContact(pts: seq<ContactPoint>) returns (k: nat)
    requires |pts| > 0
    ensures k < |pts|
    ensures forall i :: 0 <= i < |pts| ==> pts[k].distance <= pts[i].distance
    ensures forall i :: 0 <= i < k ==> pts[k].distance < pts[i].distance
  {
    k := 0;
    var i := 1;
    while i < |pts|
      invariant 1 <= i <= |pts| && k < i
      invariant forall j :: 0 <= j < i ==> pts[k].distance <= pts[j].distance
      invariant forall j :: 0 <= j < k ==> pts[k].distance < pts[j].distance
    {
      if pts[i].distance < pts[k].distance {
        k := i;
      }
      i := i + 1;
    }
  }

  /** The deepest point among the first `n`, first such index. */
  function Deepest(pts: seq<ContactPoint>, n: nat): (k: nat)
    requires 0 < n <= |pts|
    ensures k < n
    ensures forall i :: 0 <= i < n ==> pts[k].distance <= pts[i].distance
    ensures forall i :: 0 <= i < k ==> pts[k].distance < pts[i].distance
  {
    if n == 1 then 0
    else
      var k := Deepest(pts, n - 1);
      if pts[n - 1].distance < pts[k].distance then n - 1 else k
  }

  /** The two properties of the selection determine the index. */
  lemma DeepestUnique(pts: seq<ContactPoint>, k: nat)
    requires k < |pts|
    requires forall i :: 0 <= i < |pts| ==> pts[k].distance <= pts[i].distance
    requires forall i :: 0 <= i < k ==> pts[k].distance < pts[i].distance
    ensures k == Deepest(pts, |pts|)
  {
    var d := Deepest(pts, |pts|);
    assert pts[d].distance <= pts[k].distance && pts[k].distance <= pts[d].distance;
  }

  /** With the deepest point chosen, the manifold is cleared exactly when no
      point touches or penetrates. */
  lemma DeepestClearsIffNoPenetration(pts: seq<ContactPoint>, k: nat)
    requires k < |pts|
    requires forall i :: 0 <= i < |pts| ==> pts[k].distance <= pts[i].distance
    ensures pts[k].distance > 0.0 <==> forall i :: 0 <= i < |pts| ==> pts[i].distance > 0.0
  {
  }

  /** Lever arm: capsule half height plus the contact's offset along the
      capsule's up axis (Y) in the tree proxy's frame. */
  function LeverArm(halfHeight: real, cp: ContactPoint): real {
    halfHeight + cp.localPointB.y
  }

  /** Momentum proxy of the body: speed divided by a positive inverse mass. */
  function Momentum(speed: real, invMass: PosReal): real {
    speed / invMass
  }

  /** Bending stress: loading rate `dp / 0.15` times lever arm times radius,
      over the tree's stiffness. */
  function Stress(dp: real, l: real, t: Tree): real
    requires IsPhysical(t)
  {
    (dp * MAX_COLLISION_DURATION_INV) * l * t.radius / t.I
  }

  /** The body's state the first-contact rule reads: speed (a vector
      length), inverse mass (0 for a kinematic body), the normalised reverse
      velocity and the normalised position. */
  datatype Impact = Impact(speed: NonNegReal, invMass: NonNegReal, negVelDir: Vec3, bodyDir: Vec3)

  /** The yield test passes when the stress reaches the yield stress. */
  predicate Yields(t: Tree, dp: real, l: real)
    requires IsPhysical(t)
  {
    t.sigMax <= Stress(dp, l, t)
  }

  /** The yield test of the first-contact rule for a body's impact. With a
      positive inverse mass it is `Yields` of the momentum proxy. A kinematic
      body (inverse mass 0) divides by zero in IEEE arithmetic: moving, its
      momentum is +inf, so the stress is +inf (the test passes) exactly when
      the lever arm is positive, and -inf or NaN (it fails) otherwise; at rest
      0/0 is NaN and the test fails. */
  predicate ImpactYields(t: Tree, imp: Impact, l: real)
    requires IsPhysical(t)
  {
    if imp.invMass == 0.0 then imp.speed > 0.0 && l > 0.0
    else Yields(t, Momentum(imp.speed, imp.invMass), l)
  }

  /** A kinematic body breaks through exactly when it moves and meets the
      tree above the capsule's lower end; a body with mass follows the
      stress rule. */
  lemma KinematicImpactYields(t: Tree, imp: Impact, l: real)
    requires IsPhysical(t)
    ensures imp.invMass == 0.0 ==> (ImpactYields(t, imp, l) <==> imp.speed > 0.0 && l > 0.0)
    ensures imp.invMass > 0.0 ==>
      (ImpactYields(t, imp, l) <==> t.sigMax <= (imp.speed / imp.invMass * MAX_COLLISION_DURATION_INV) * l * t.radius / t.I)
  {
  }

  /** When the yield test passes, the lever arm times the radius is non-zero. */
  lemma ImpactYieldsLeverNonZero(t: Tree, imp: Impact, l: real)
    requires IsPhysical(t) && ImpactYields(t, imp, l)
    ensures l * t.radius != 0.0
  {
    if imp.invMass > 0.0 {
      BrakingForceGivesYield(t, Momentum(imp.speed, imp.invMass), l);
    } else {
      assert l > 0.0 && t.radius > 0.0;
    }
  }

  /** First-contact update of the context, with `cp` the chosen,
      non-positive contact point: the collision is marked started and, when
      the stress reaches the yield stress, custom handling is switched on with
      the braking force that would produce exactly the yield stress. */
  function StartCollision(ctx: TreeCollisionContext, t: Tree, halfHeight: real,
                          cp: ContactPoint, imp: Impact): (r: TreeCollisionContext)
    requires IsPhysical(t)
    ensures r.collisionStarted
    ensures r.treeIdentifier == ctx.treeIdentifier
    ensures r.collisionDuration == ctx.collisionDuration
    ensures r.customHandling == (ctx.customHandling || ImpactYields(t, imp, LeverArm(halfHeight, cp)))
    ensures ImpactYields(t, imp, LeverArm(halfHeight, cp)) ==>
      var l := LeverArm(halfHeight, cp);
      r.l == l && l * t.radius != 0.0 && r.brakingForce * l * t.radius / t.I == t.sigMax &&
      r.forceApplyPt == cp.localPointA && r.forceDir == imp.negVelDir && r.origTreeDir == imp.bodyDir
    ensures !ImpactYields(t, imp, LeverArm(halfHeight, cp)) ==>
      r == ctx.(collisionStarted := true)
  {
    var l := LeverArm(halfHeight, cp);
    if ImpactYields(t, imp, l) then
      ImpactYieldsLeverNonZero(t, imp, l);
      BrakingForceIdentity(t, l);
      ctx.(customHandling := true,
           brakingForce := (t.sigMax * t.I) / (l * t.radius),
           forceApplyPt := cp.localPointA,
           forceDir := imp.negVelDir,
           origTreeDir := imp.bodyDir,
           l := l,
           collisionStarted := true)
    else
      ctx.(collisionStarted := true)
  }

  /** When the yield test passes the lever arm is non-zero, and the recorded
      braking force reproduces the yield stress through the stress formula. */
  lemma BrakingForceGivesYield(t: Tree, dp: real, l: real)
    requires IsPhysical(t) && Yields(t, dp, l)
    ensures l * t.radius != 0.0
    ensures ((t.sigMax * t.I) / (l * t.radius)) * l * t.radius / t.I == t.sigMax
  {
    BrakingForceIdentity(t, l);
  }

  /** The braking-force formula inverts the stress formula for any non-zero
      lever arm. */
  lemma BrakingForceIdentity(t: Tree, l: real)
    requires IsPhysical(t)
    ensures l * t.radius != 0.0 ==> ((t.sigMax * t.I) / (l * t.radius)) * l * t.radius / t.I == t.sigMax
  {
    var lr := l * t.radius;
    if lr != 0.0 {
      var b := (t.sigMax * t.I) / lr;
      assert b * lr == t.sigMax * t.I;
      assert b * l * t.radius == b * lr;
    }
  }

  /** The worked example: l = 0.5, dp = 100, r = 0.1, I = 0.02 and a yield
      stress of 1000 give a stress of 5000/3 (about 1666.7), so custom
      handling starts with a braking force of 400. */
  lemma StressExample(ctx: TreeCollisionContext, t: Tree, cp: ContactPoint, imp: Impact)
    requires t.radius == 0.1 && t.I == 0.02 && t.sigMax == 1000.0
    requires cp.localPointB.y == 0.0 && imp.speed == 100.0 && imp.invMass == 1.0
    ensures IsPhysical(t)
    ensures Stress(Momentum(imp.speed, imp.invMass), LeverArm(0.5, cp), t) == 5000.0 / 3.0
    ensures StartCollision(ctx, t, 0.5, cp, imp).customHandling
    ensures StartCollision(ctx, t, 0.5, cp, imp).brakingForce == 400.0
  {
    assert Momentum(imp.speed, imp.invMass) == 100.0;
    assert LeverArm(0.5, cp) == 0.5;
    assert Stress(100.0, 0.5, t) == 5000.0 / 3.0;
  }

  /** What one call of the external deflection routine leaves behind: the
      pair's context, the body's velocity after the corrective force (its
      length and normalised reverse direction), and the two spring bytes it
      writes into the pair's tree (the break state). */
  datatype Deflection = Deflection(ctx: TreeCollisionContext, speed: NonNegReal, negVelDir: Vec3,
                                   springForceUv: (int8, int8))

  /** The deflection routine, called with the pair's context, the body's
      impact state and the pair's tree as they are at the call. */
  type Deflector = (TreeCollisionContext, Impact, Tree) -> Deflection

  /** What processing one surviving pair leaves behind: its context, the
      contact points its manifold then holds, the body's impact state and
      the pair's tree. */
  datatype PairOutcome = PairOutcome(ctx: TreeCollisionContext, points: seq<ContactPoint>, impact: Impact, tree: Tree)

  /** The custom-handling stage: while the custom collision has not run for
      the full duration the external deflection routine updates the
      context, the body's velocity and the tree's spring bytes; in either
      case the manifold is cleared so that the solver leaves the contact
      alone. */
  function CustomStage(ctx: TreeCollisionContext, pts: seq<ContactPoint>, imp: Impact, t: Tree,
                       deflect: Deflector): PairOutcome
  {
    if !ctx.customHandling then PairOutcome(ctx, pts, imp, t)
    else if ctx.collisionDuration < ctx.MaxCollisionDuration() then
      var d := deflect(ctx, imp, t);
      PairOutcome(d.ctx, [], imp.(speed := d.speed, negVelDir := d.negVelDir), t.(springForceUv := d.springForceUv))
    else PairOutcome(ctx, [], imp, t)
  }

  /** One pair's step, given the manifold's contact points after the narrow
      phase: on the first frame with contacts the deepest point is chosen; a
      positive distance clears the manifold and ends the step; otherwise the
      first-contact update runs. Then the custom-handling stage. */
  function PairStep(ctx: TreeCollisionContext, t: Tree, halfHeight: real, pts: seq<ContactPoint>,
                    imp: Impact, deflect: Deflector): PairOutcome
    requires IsPhysical(t)
  {
    if !ctx.collisionStarted && |pts| > 0 then
      var cp := pts[Deepest(pts, |pts|)];
      if cp.distance > 0.0 then PairOutcome(ctx, [], imp, t)
      else CustomStage(StartCollision(ctx, t, halfHeight, cp, imp), pts, imp, t, deflect)
    else CustomStage(ctx, pts, imp, t, deflect)
  }

  /** The step as a sequence of updates, choosing the contact with the
      selection loop. */
  method StepPair(ctx: TreeCollisionContext, t: Tree, halfHeight: real, pts: seq<ContactPoint>,
                  imp: Impact, deflect: Deflector)
    returns (o: PairOutcome)
    requires IsPhysical(t)
    ensures o == PairStep(ctx, t, halfHeight, pts, imp, deflect)
  {
    var c := ctx;
    var points := pts;
    var body := imp;
    var tree := t;
    if !c.collisionStarted {
      if |points| > 0 {
        var k := SelectDeepestContact(points);
        DeepestUnique(points, k);
        if points[k].distance > 0.0 {
          return PairOutcome(c, [], body, tree);
        }
        c := StartCollision(c, t, halfHeight, points[k], imp);
      }
    }
    if c.customHandling {
      if c.collisionDuration < c.MaxCollisionDuration() {
        var d := deflect(c, body, tree);
        c := d.ctx;
        body := body.(speed := d.speed, negVelDir := d.negVelDir);
        tree := tree.(springForceUv := d.springForceUv);
      }
      points := [];
    }
    o := PairOutcome(c, points, body, tree);
  }

  /** The step as written: the selection loop's running choice is point 0
      itself, so the point it settles on is the as-written choice and it has
      been copied over point 0 of the manifold. */
  function PairStepAsWritten(ctx: TreeCollisionContext, t: Tree, halfHeight: real, pts: seq<ContactPoint>,
                             imp: Impact, deflect: Deflector): PairOutcome
    requires IsPhysical(t)
  {
    if !ctx.collisionStarted && |pts| > 0 then
      var cp := pts[AsWrittenChoice(pts, |pts|)];
      if cp.distance > 0.0 then PairOutcome(ctx, [], imp, t)
      else CustomStage(StartCollision(ctx, t, halfHeight, cp, imp), pts[0 := cp], imp, t, deflect)
    else CustomStage(ctx, pts, imp, t, deflect)
  }

  /** The as-written step as a sequence of updates, through the as-written
      selection loop and its overwritten point list. */
  method StepPairAsWritten(ctx: TreeCollisionContext, t: Tree, halfHeight: real, pts: seq<ContactPoint>,
                           imp: Impact, deflect: Deflector)
    returns (o: PairOutcome)
    requires IsPhysical(t)
    ensures o == PairStepAsWritten(ctx, t, halfHeight, pts, imp, deflect)
  {
    var c := ctx;
    var points := pts;
    var body := imp;
    var tree := t;
    if !c.collisionStarted {
      if |points| > 0 {
        var chosen, after := SelectContactPointAsWritten(points);
        assert after == pts[0 := chosen];
        if chosen.distance > 0.0 {
          return PairOutcome(c, [], body, tree);
        }
        c := StartCollision(c, t, halfHeight, chosen, imp);
        points := after;
      }
    }
    if c.customHandling {
      if c.collisionDuration < c.MaxCollisionDuration() {
        var d := deflect(c, body, tree);
        c := d.ctx;
        body := body.(speed := d.speed, negVelDir := d.negVelDir);
        tree := tree.(springForceUv := d.springForceUv);
      }
      points := [];
    }
    o := PairOutcome(c, points, body, tree);
  }

  /** On the manifold [0.1, -0.2] of a fresh pair the step as written clears
      the manifold and leaves the context, the body and the tree as they
      were, though a point penetrates; the corrected step starts the
      collision on point 1 and keeps the manifold for the custom-handling
      stage. */
  lemma AsWrittenStepIgnoresPenetration(ctx: TreeCollisionContext, t: Tree, halfHeight: real,
                                        imp: Impact, deflect: Deflector)
    requires IsPhysical(t) && !ctx.collisionStarted
    ensures var pts := [ContactPoint(0.1, ZERO, ZERO), ContactPoint(-0.2, ZERO, ZERO)];
            PairStepAsWritten(ctx, t, halfHeight, pts, imp, deflect) == PairOutcome(ctx, [], imp, t) &&
            PairStep(ctx, t, halfHeight, pts, imp, deflect) ==
              CustomStage(StartCollision(ctx, t, halfHeight, pts[1], imp), pts, imp, t, deflect)
  {
    var pts := [ContactPoint(0.1, ZERO, ZERO), ContactPoint(-0.2, ZERO, ZERO)];
    AsWrittenMissesPenetration();
    assert Deepest(pts, 2) == 1;
  }

  /** The two steps agree on a manifold with one contact point. */
  lemma StepsAgreeOnOnePoint(ctx: TreeCollisionContext, t: Tree, halfHeight: real, cp: ContactPoint,
                             imp: Impact, deflect: Deflector)
    requires IsPhysical(t)
    ensures PairStepAsWritten(ctx, t, halfHeight, [cp], imp, deflect) == PairStep(ctx, t, halfHeight, [cp], imp, deflect)
  {
    assert [cp][0 := cp] == [cp];
  }

  /** First frame with contacts, all of them separated: the manifold is
      cleared and the context, the body and the tree are left exactly as
      they were. */
  lemma SeparatedContactsOnlyClear(ctx: TreeCollisionContext, t: Tree, halfHeight: real, pts: seq<ContactPoint>,
                                   imp: Impact, deflect: Deflector)
    requires IsPhysical(t) && !ctx.collisionStarted && |pts| > 0
    requires forall i :: 0 <= i < |pts| ==> pts[i].distance > 0.0
    ensures PairStep(ctx, t, halfHeight, pts, imp, deflect) == PairOutcome(ctx, [], imp, t)
  {
    var k := Deepest(pts, |pts|);
    assert pts[k].distance > 0.0;
  }

  /** First frame with a touching or penetrating contact: the collision is
      started, and custom handling switches on exactly when the deepest
      point's stress reaches the yield stress; a started custom collision
      always ends the step with a cleared manifold. */
  lemma PenetrationStartsCollision(ctx: TreeCollisionContext, t: Tree, halfHeight: real, pts: seq<ContactPoint>,
                                   imp: Impact, deflect: Deflector, i: nat)
    requires IsPhysical(t) && !ctx.collisionStarted && !ctx.customHandling
    requires i < |pts| && pts[i].distance <= 0.0
    ensures var cp := pts[Deepest(pts, |pts|)];
            var o := PairStep(ctx, t, halfHeight, pts, imp, deflect);
            cp.distance <= 0.0 &&
            (ImpactYields(t, imp, LeverArm(halfHeight, cp)) <==> o.points == []) &&
            (!ImpactYields(t, imp, LeverArm(halfHeight, cp)) ==>
               o == PairOutcome(ctx.(collisionStarted := true), pts, imp, t))
  {
    var k := Deepest(pts, |pts|);
    assert pts[k].distance <= pts[i].distance;
    var c := StartCollision(ctx, t, halfHeight, pts[k], imp);
    assert c.collisionDuration == ctx.collisionDuration;
  }

  /** Once started and not under custom handling, a step changes nothing:
      the context, the body and the tree stay and the contacts are left to
      the solver. */
  lemma StartedPlainStepIsIdentity(ctx: TreeCollisionContext, t: Tree, halfHeight: real, pts: seq<ContactPoint>,
                                   imp: Impact, deflect: Deflector)
    requires IsPhysical(t) && ctx.collisionStarted && !ctx.customHandling
    ensures PairStep(ctx, t, halfHeight, pts, imp, deflect) == PairOutcome(ctx, pts, imp, t)
  {
  }

  /** Under custom handling the manifold always ends empty, and the
      deflection runs, with the context, body and tree of the step, only
      while the elapsed duration is below 0.15 s; afterwards nothing
      changes. */
  lemma CustomHandlingBoundedByDuration(ctx: TreeCollisionContext, t: Tree, halfHeight: real, pts: seq<ContactPoint>,
                                        imp: Impact, deflect: Deflector)
    requires IsPhysical(t) && ctx.collisionStarted && ctx.customHandling
    ensures PairStep(ctx, t, halfHeight, pts, imp, deflect).points == []
    ensures ctx.collisionDuration < MAX_COLLISION_DURATION ==>
              var d := deflect(ctx, imp, t);
              PairStep(ctx, t, halfHeight, pts, imp, deflect) ==
              PairOutcome(d.ctx, [], imp.(speed := d.speed, negVelDir := d.negVelDir), t.(springForceUv := d.springForceUv))
    ensures ctx.collisionDuration >= MAX_COLLISION_DURATION ==>
              PairStep(ctx, t, halfHeight, pts, imp, deflect) == PairOutcome(ctx, [], imp, t)
  {
  }

  /** Whatever the deflection routine does, a step changes of the body only
      its velocity and of the tree only its spring bytes; the tree stays
      physical and keeps its identifier. */
  lemma {:induction false} StepWritesOnlyVelocityAndSpring(ctx: TreeCollisionContext, t: Tree, halfHeight: real,
                                                           pts: seq<ContactPoint>, imp: Impact, deflect: Deflector)
    requires IsPhysical(t)
    ensures var o := PairStep(ctx, t, halfHeight, pts, imp, deflect);
            o.impact == imp.(speed := o.impact.speed, negVelDir := o.impact.negVelDir) &&
            o.tree == t.(springForceUv := o.tree.springForceUv) &&
            IsPhysical(o.tree) && o.tree.identifier == t.identifier
  {
    var o := PairStep(ctx, t, halfHeight, pts, imp, deflect);
    var c := if !ctx.collisionStarted && |pts| > 0 then StartCollision(ctx, t, halfHeight, pts[Deepest(pts, |pts|)], imp) else ctx;
    if c.customHandling && c.collisionDuration < c.MaxCollisionDuration() {
      var d := deflect(c, imp, t);
      assert o.tree == t.(springForceUv := d.springForceUv) || o.tree == t;
    }
  }

  /** The first-contact update reads of the tree only its stiffness, radius
      and yield stress; its spring bytes play no part. */
  lemma StartCollisionIgnoresSpring(ctx: TreeCollisionContext, t: Tree, uv: (int8, int8), halfHeight: real,
                                    cp: ContactPoint, imp: Impact)
    requires IsPhysical(t)
    ensures IsPhysical(t.(springForceUv := uv))
    ensures StartCollision(ctx, t.(springForceUv := uv), halfHeight, cp, imp) == StartCollision(ctx, t, halfHeight, cp, imp)
  {
    var t2 := t.(springForceUv := uv);
    var l := LeverArm(halfHeight, cp);
    if imp.invMass > 0.0 {
      var dp := Momentum(imp.speed, imp.invMass);
      assert Stress(dp, l, t2) == Stress(dp, l, t);
    }
  }
}
