/** The navigation probe: a convex ghost moved towards a target pose by a
    sweep test that stops at the closest admissible hit. */
module NavigationProbe {
  import opened PhysicsCfg

  /** Squared displacement below which no sweep is performed. */
  const MIN_SWEEP_LENGTH2: real := 0.0001

  /** Group/mask filtering between two broadphase handles: each side's group
      must meet the other side's mask. */
  predicate NeedsCollision(myGroup: bv32, myMask: bv32, otherGroup: bv32, otherMask: bv32) {
    myGroup & otherMask != 0 && otherGroup & myMask != 0
  }

  /** The filter does not depend on which side asks. */
  lemma NeedsCollisionSymmetric(g1: bv32, m1: bv32, g2: bv32, m2: bv32)
    ensures NeedsCollision(g1, m1, g2, m2) == NeedsCollision(g2, m2, g1, m1)
  {
    assert g1 & m2 == m2 & g1 && g2 & m1 == m1 & g2;
  }

  /** One hit the sweep reports: the object hit (with what the callback
      reads of it), the hit normal, whether that normal is already in world
      space, and the hit fraction along the sweep. */
  datatype ConvexResult = ConvexResult(
    hitObject: nat,
    hasContactResponse: bool,
    objectRot: Quat,
    group: bv32, mask: bv32,
    normalLocal: Vec3,
    normalInWorldSpace: bool,
    fraction: real)

  /** The hit normal in world space: a local normal is turned by the basis
      of the hit object's world transform. */
  function WorldNormal(c: ConvexResult): Vec3 {
    if c.normalInWorldSpace then c.normalLocal else Rotate(c.objectRot, c.normalLocal)
  }

  /** The filter of the sweep callback: not the probe itself, an object with
      contact response, and a normal not steeper than the slope limit. */
  predicate Admissible(c: ConvexResult, me: nat, up: Vec3, minSlopeDot: real) {
    c.hitObject != me && c.hasContactResponse && up.Dot(WorldNormal(c)) >= minSlopeDot
  }

  function FractionOf(h: Option<ConvexResult>): real {
    if h.Some? then h.value.fraction else 1.0
  }

  /** The hit the callback holds after the sweep reported `cands` in order:
      the sweep hands over only hits closer than the closest so far, and the
      callback keeps an admissible one. */
  function Closest(cands: seq<ConvexResult>, me: nat, up: Vec3, minSlopeDot: real): Option<ConvexResult> {
    if cands == [] then None
    else
      var prev := Closest(cands[..|cands| - 1], me, up, minSlopeDot);
      var c := cands[|cands| - 1];
      if c.fraction < FractionOf(prev) && Admissible(c, me, up, minSlopeDot) then Some(c) else prev
  }

  /** The kept hit is an admissible reported hit closer than the sweep's
      end (fraction 1), and no admissible hit was closer; so without a kept
      hit, no admissible hit lies before the end. */
  lemma {:induction false} ClosestIsMinimal(cands: seq<ConvexResult>, me: nat, up: Vec3, minSlopeDot: real)
    ensures var h := Closest(cands, me, up, minSlopeDot);
            h.Some? ==> h.value in cands && Admissible(h.value, me, up, minSlopeDot) && h.value.fraction < 1.0
    ensures var h := Closest(cands, me, up, minSlopeDot);
            forall k :: 0 <= k < |cands| && Admissible(cands[k], me, up, minSlopeDot) ==>
              FractionOf(h) <= cands[k].fraction
  {
    if cands != [] {
      var n := |cands| - 1;
      ClosestIsMinimal(cands[..n], me, up, minSlopeDot);
      forall k | 0 <= k < n ensures cands[k] == cands[..n][k] { }
    }
  }

  /** The sweep callback: it never reports the probe itself, and keeps the
      closest admissible hit. */
  class ClosestNotMeCallback {
    const me: nat
    const up: Vec3
    const minSlopeDot: real
    var closestHitFraction: real
    var hit: Option<ConvexResult>

    constructor (me: nat, up: Vec3, minSlopeDot: real)
      ensures this.me == me && this.up == up && this.minSlopeDot == minSlopeDot
      ensures closestHitFraction == 1.0 && hit == None
    {
      this.me := me;
      this.up := up;
      this.minSlopeDot := minSlopeDot;
      closestHitFraction := 1.0;
      hit := None;
    }

    /** `addSingleResult`: an inadmissible hit is answered with 1 and not
        recorded; an admissible one becomes the closest hit and its fraction
        is returned. */
    method AddSingleResult(c: ConvexResult) returns (ret: real)
      modifies this
      ensures !Admissible(c, me, up, minSlopeDot) ==>
                ret == 1.0 && hit == old(hit) && closestHitFraction == old(closestHitFraction)
      ensures Admissible(c, me, up, minSlopeDot) ==>
                ret == c.fraction && hit == Some(c) && closestHitFraction == c.fraction
    {
      if c.hitObject == me {
        return 1.0;
      }
      if !c.hasContactResponse {
        return 1.0;
      }
      var dotUp := up.Dot(WorldNormal(c));
      if dotUp < minSlopeDot {
        return 1.0;
      }
      closestHitFraction := c.fraction;
      hit := Some(c);
      return c.fraction;
    }

    /** The convex sweep feeding this callback the hits it finds, in order,
        each only when closer than the closest hit so far. */
    method Sweep(cands: seq<ConvexResult>)
      requires closestHitFraction == 1.0 && hit == None
      modifies this
      ensures hit == Closest(cands, me, up, minSlopeDot)
      ensures closestHitFraction == FractionOf(hit)
    {
      var i := 0;
      while i < |cands|
        invariant 0 <= i <= |cands|
        invariant hit == Closest(cands[..i], me, up, minSlopeDot)
        invariant closestHitFraction == FractionOf(hit)
      {
        assert cands[..i + 1][..i] == cands[..i];
        if cands[i].fraction < closestHitFraction {
          var _ := AddSingleResult(cands[i]);
        }
        i := i + 1;
      }
      assert cands[..i] == cands;
    }
  }

  /** Where the step leaves the probe's origin: at the hit fraction of the
      way from `current` to `target` on an admissible hit the probe's filter
      accepts, at the target otherwise. */
  function StepOrigin(current: Vec3, target: Vec3, h: Option<ConvexResult>, group: bv32, mask: bv32): Vec3 {
    if h.Some? && NeedsCollision(group, mask, h.value.group, h.value.mask) then
      current.Sub(current.Sub(target).Scale(h.value.fraction))
    else target
  }

  /** The stopped position lies on the segment from current to target, at
      the hit fraction. */
  lemma StepOriginOnSegment(current: Vec3, target: Vec3, h: Option<ConvexResult>, group: bv32, mask: bv32)
    requires h.Some? && NeedsCollision(group, mask, h.value.group, h.value.mask)
    ensures var f := h.value.fraction;
            StepOrigin(current, target, h, group, mask) == current.Add(target.Sub(current).Scale(f))
  {
  }

  /** `calculate_transform_internal`: the world transform of the probe's
      shape for a probe pose. The shape sits at the pose's position plus the
      offset turned by the library product `rot * offset`; the transform's
      basis is set from `rot`. */
  function ShapeTransform(pos: Vec3, rot: Quat, shapeOffset: Vec3): Pose {
    Pose(rot, pos.Add(Rotate(rot, shapeOffset)))
  }

  /** `get_pos`: the origin minus the offset turned by the rotation read
      back from the transform. */
  function ProbePos(tr: Pose, shapeOffset: Vec3): Vec3 {
    tr.origin.Sub(Rotate(tr.rot, shapeOffset))
  }

  /** Setting a pose and reading the position back gives the position: the
      rotated offset is added and subtracted again. The rotation is kept. */
  lemma PosRoundTrip(pos: Vec3, rot: Quat, shapeOffset: Vec3)
    ensures ProbePos(ShapeTransform(pos, rot, shapeOffset), shapeOffset) == pos
    ensures ShapeTransform(pos, rot, shapeOffset).rot == rot
  {
  }

  /** The probe: its ghost object's world transform and broadphase filter,
      and the offset of the convex shape from the probe's position. */
  class Probe {
    const me: nat
    const shapeOffset: Vec3
    const group: bv32
    const mask: bv32
    var transform: Pose

    constructor (me: nat, shapeOffset: Vec3, group: bv32, mask: bv32, transform: Pose)
      ensures this.me == me && this.shapeOffset == shapeOffset && this.group == group && this.mask == mask
      ensures this.transform == transform
    {
      this.me := me;
      this.shapeOffset := shapeOffset;
      this.group := group;
      this.mask := mask;
      this.transform := transform;
    }

    /** `get_pos`. */
    function GetPos(): Vec3
      reads this
    {
      ProbePos(transform, shapeOffset)
    }

    /** `set_transform`: the shape transform of the pose, after which the
        probe reads back exactly the position and rotation set. */
    method SetTransform(pos: Vec3, rot: Quat)
      modifies this
      ensures transform == ShapeTransform(pos, rot, shapeOffset)
      ensures GetPos() == pos && transform.rot == rot
    {
      transform := ShapeTransform(pos, rot, shapeOffset);
      PosRoundTrip(pos, rot, shapeOffset);
    }

    /** `sim_step`: the shape is swept from its current origin to the
        target's (only when the move is long enough), with "up" the reverse
        sweep direction and slope limit 0; on an accepted hit the origin
        stops at the hit fraction, otherwise it reaches the target. The
        rotation always becomes the target rotation. `cands` are the hits
        the world's sweep reports. */
    method SimStep(targetPos: Vec3, targetRot: Quat, cands: seq<ConvexResult>)
      modifies this
      ensures var cur := old(transform).origin;
              var tgt := ShapeTransform(targetPos, targetRot, shapeOffset).origin;
              var dir := cur.Sub(tgt);
              var h := if dir.Length2() > MIN_SWEEP_LENGTH2 then Closest(cands, me, dir, 0.0) else None;
              transform == Pose(targetRot, StepOrigin(cur, tgt, h, group, mask))
    {
      var current := transform;
      var target := ShapeTransform(targetPos, targetRot, shapeOffset);
      var currentPosition := current.origin;
      var targetPosition := target.origin;
      var sweepDirNegative := currentPosition.Sub(targetPosition);
      var callback := new ClosestNotMeCallback(me, sweepDirNegative, 0.0);
      if sweepDirNegative.Length2() > MIN_SWEEP_LENGTH2 {
        callback.Sweep(cands);
      }
      if callback.hit.Some? && NeedsCollision(group, mask, callback.hit.value.group, callback.hit.value.mask) {
        currentPosition := currentPosition.Sub(sweepDirNegative.Scale(callback.hit.value.fraction));
      } else {
        currentPosition := targetPosition;
      }
      transform := Pose(target.rot, currentPosition);
    }
  }

  /** A step with nothing in the way, or too short to sweep, lands the probe
      on the target's shape origin, and the probe then reads back the
      target position. */
  lemma UnobstructedStepReachesTarget(cur: Vec3, targetPos: Vec3, targetRot: Quat, shapeOffset: Vec3,
                                      me: nat, cands: seq<ConvexResult>, group: bv32, mask: bv32)
    requires forall k :: 0 <= k < |cands| ==> cands[k].fraction >= 1.0
    ensures var tgt := ShapeTransform(targetPos, targetRot, shapeOffset).origin;
            var dir := cur.Sub(tgt);
            var h := if dir.Length2() > MIN_SWEEP_LENGTH2 then Closest(cands, me, dir, 0.0) else None;
            StepOrigin(cur, tgt, h, group, mask) == tgt &&
            ProbePos(Pose(targetRot, StepOrigin(cur, tgt, h, group, mask)), shapeOffset) == targetPos
  {
    var tgt := ShapeTransform(targetPos, targetRot, shapeOffset).origin;
    ClosestIsMinimal(cands, me, cur.Sub(tgt), 0.0);
    PosRoundTrip(targetPos, targetRot, shapeOffset);
  }
}
