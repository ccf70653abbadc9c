/** The deterministic rules of the physics façade: shape creation (the
    capsule axis choice), sensor registration from the ghost pair callbacks,
    insertion into an external broadphase island, the child search of a
    compound, and the flag and filter updates of collision objects. */
module Wrapper {
  import opened PhysicsCfg

  /** Bullet collision-object flags used here. */
  const CF_NO_CONTACT_RESPONSE: bv32 := 4
  const CF_DISABLE_VISUALIZE_OBJECT: bv32 := 32

  /** Bullet activation state of an object kept out of the simulation. */
  const DISABLE_SIMULATION: int := 5

  /** Outerra object flags used here. */
  const OTF_TRANSFORMATION_CHANGED: bv32 := 2
  const OTF_SENSOR_GHOST_OBJECT: bv32 := 32

  /** Tolerance the capsule branch compares half extents with. */
  const CAPSULE_EPS: real := 0.000001

  function Abs(r: real): real { if r < 0.0 then -r else r }

  // ---------------------------------------------------------------------
  // Shape creation

  datatype ShapeKind =
    | ShapeNone | ShapeConvex | ShapeSphere | ShapeBox | ShapeCylinder
    | ShapeCapsule | ShapeCone | ShapeMeshStatic | ShapeMeshDynamic

  datatype Axis = AxisX | AxisY | AxisZ

  /** The Bullet shapes the façade creates; `mesh` names the triangle mesh
      handed in as opaque data. */
  datatype CreatedShape =
    | ConvexHullShape
    | BvhTriangleMeshShape(mesh: nat)
    | SphereShape(radius: real)
    | BoxShape(halfExtents: Vec3)
    | CylinderShapeZ(halfExtents: Vec3)
    | CapsuleShape(axis: Axis, radius: real, height: real)
    | ConeShapeZ(coneRadius: real, coneHeight: real)

  /** The capsule branch: the axis whose two other half extents agree is
      the capsule's axis; X is tried first, then Y, and Z is the fallback. */
  function CapsuleFromHalfExtents(h: Vec3): CreatedShape {
    if Abs(h.y - h.z) < CAPSULE_EPS then CapsuleShape(AxisX, h.y, 2.0 * (h.x - h.y))
    else if Abs(h.x - h.z) < CAPSULE_EPS then CapsuleShape(AxisY, h.x, 2.0 * (h.y - h.x))
    else CapsuleShape(AxisZ, h.y, 2.0 * (h.z - h.y))
  }

  /** `create_shape`: one shape per covered kind, none for the others. */
  function CreateShape(sh: ShapeKind, hvec: Vec3, data: nat): (r: Option<CreatedShape>)
    ensures r.None? <==> sh == ShapeNone || sh == ShapeMeshDynamic
    ensures sh == ShapeCapsule ==> r.Some? && r.value.CapsuleShape?
    ensures r.Some? && r.value.CapsuleShape? ==> sh == ShapeCapsule
  {
    match sh
    case ShapeConvex => Some(ConvexHullShape)
    case ShapeMeshStatic => Some(BvhTriangleMeshShape(data))
    case ShapeSphere => Some(SphereShape(hvec.x))
    case ShapeBox => Some(BoxShape(hvec))
    case ShapeCylinder => Some(CylinderShapeZ(hvec))
    case ShapeCapsule => Some(CapsuleFromHalfExtents(hvec))
    case ShapeCone => Some(ConeShapeZ(hvec.x, hvec.z))
    case _ => None
  }

  /** The half extents of a capsule of radius `r` whose cylinder part has
      height `height` along `axis`. */
  function CapsuleHalfExtents(axis: Axis, r: real, height: real): Vec3 {
    match axis
    case AxisX => Vec3(r + height / 2.0, r, r)
    case AxisY => Vec3(r, r + height / 2.0, r)
    case AxisZ => Vec3(r, r, r + height / 2.0)
  }

  /** Creating a capsule from its own half extents gives it back, axis,
      radius and height, as long as a Y or Z capsule is not so short that
      its half extents pass the tolerance test for X. */
  lemma CapsuleRoundTrip(axis: Axis, r: real, height: real)
    requires axis != AxisX ==> height >= 2.0 * CAPSULE_EPS
    ensures CreateShape(ShapeCapsule, CapsuleHalfExtents(axis, r, height), 0) == Some(CapsuleShape(axis, r, height))
  {
    var h := CapsuleHalfExtents(axis, r, height);
    match axis
    case AxisX =>
      assert Abs(h.y - h.z) == 0.0;
    case AxisY =>
      assert Abs(h.y - h.z) == height / 2.0;
      assert Abs(h.x - h.z) == 0.0;
    case AxisZ =>
      assert Abs(h.y - h.z) == height / 2.0;
      assert Abs(h.x - h.z) == height / 2.0;
  }

  /** A Y capsule shorter than the tolerance is created along X, with the
      Y half extent as radius and a negative height. */
  lemma ShortCapsuleTakenAsX(r: real, height: real)
    requires 0.0 < height < 2.0 * CAPSULE_EPS
    ensures CreateShape(ShapeCapsule, CapsuleHalfExtents(AxisY, r, height), 0) ==
            Some(CapsuleShape(AxisX, r + height / 2.0, -height))
    ensures -height < 0.0
  {
    var h := CapsuleHalfExtents(AxisY, r, height);
    assert Abs(h.y - h.z) == height / 2.0;
  }

  // ---------------------------------------------------------------------
  // Collision objects

  /** The filter of a broadphase handle. */
  datatype Handle = Handle(group: bv32, mask: bv32)

  class CollisionObject {
    const id: nat
    const isGhost: bool
    const shapeType: int
    var transform: Pose
    var collisionFlags: bv32
    var otFlags: bv32
    var activationState: int
    var handle: Option<Handle>

    /** `create_collision_object` / `create_ghost_object`: a new object with
        the given shape and user data, no broadphase handle yet, the ghost's
        `otFlags` as passed. The collision flags and the activation state are
        whatever the Bullet base-class constructor sets (not part of this
        model), so they are parameters here. */
    constructor (id: nat, isGhost: bool, shapeType: int, transform: Pose, otFlags: bv32,
                 baseFlags: bv32, baseActivation: int)
      ensures this.id == id && this.isGhost == isGhost && this.shapeType == shapeType
      ensures this.transform == transform && this.otFlags == otFlags
      ensures collisionFlags == baseFlags && activationState == baseActivation && handle == None
    {
      this.id := id;
      this.isGhost := isGhost;
      this.shapeType := shapeType;
      this.transform := transform;
      this.otFlags := otFlags;
      collisionFlags := baseFlags;
      activationState := baseActivation;
      handle := None;
    }
  }

  /** `update_collision_object`: the transform is always set; the
      transformation-changed flag is raised when an AABB update is asked for
      or the object has a broadphase handle, and no other flag changes. */
  method UpdateCollisionObject(obj: CollisionObject, tr: Pose, updateAabb: bool)
    modifies obj
    ensures obj.transform == tr
    ensures obj.otFlags == TransformChangedFlags(old(obj.otFlags), updateAabb || old(obj.handle).Some?)
    ensures obj.collisionFlags == old(obj.collisionFlags) && obj.handle == old(obj.handle)
    ensures obj.activationState == old(obj.activationState)
  {
    obj.transform := tr;
    if updateAabb || obj.handle.Some? {
      obj.otFlags := obj.otFlags | OTF_TRANSFORMATION_CHANGED;
    }
  }

  /** The flag word `update_collision_object` leaves. */
  function TransformChangedFlags(flags: bv32, raise: bool): (r: bv32)
    ensures r & !OTF_TRANSFORMATION_CHANGED == flags & !OTF_TRANSFORMATION_CHANGED
    ensures r & OTF_TRANSFORMATION_CHANGED != 0 <==> raise || flags & OTF_TRANSFORMATION_CHANGED != 0
  {
    if raise then flags | OTF_TRANSFORMATION_CHANGED else flags
  }

  /** `set_collision_info`: group and mask replace the handle's filter when
      there is a handle, and nothing happens otherwise. */
  method SetCollisionInfo(obj: CollisionObject, group: bv32, mask: bv32)
    modifies obj
    ensures obj.handle == if old(obj.handle).Some? then Some(Handle(group, mask)) else None
    ensures obj.transform == old(obj.transform) && obj.otFlags == old(obj.otFlags)
    ensures obj.collisionFlags == old(obj.collisionFlags) && obj.activationState == old(obj.activationState)
  {
    if obj.handle.Some? {
      obj.handle := Some(Handle(group, mask));
    }
  }

  /** `add_collision_object_to_external_broadphase`: a full island refuses
      the object and nothing changes; otherwise a proxy with the object's
      shape type and the given filter is created and becomes the object's
      broadphase handle. */
  method AddCollisionObjectToExternalBroadphase(bp: ExternalBroadphase, co: CollisionObject, group: bv32, mask: bv32)
    returns (ok: bool)
    modifies bp, co
    ensures ok <==> !old(bp.IsFull())
    ensures !ok ==> bp.proxies == old(bp.proxies) && co.handle == old(co.handle)
    ensures ok ==> bp.proxies == old(bp.proxies) + [IslandProxy(co.id, co.shapeType, group, mask)] &&
                   co.handle == Some(Handle(group, mask))
    ensures bp.entries == old(bp.entries) && bp.proceduralObjects == old(bp.proceduralObjects)
    ensures bp.revision == old(bp.revision) && bp.dirty == old(bp.dirty) && bp.wasUsedThisFrame == old(bp.wasUsedThisFrame)
    ensures co.transform == old(co.transform) && co.otFlags == old(co.otFlags)
    ensures co.collisionFlags == old(co.collisionFlags) && co.activationState == old(co.activationState)
  {
    if bp.IsFull() {
      return false;
    }
    bp.proxies := bp.proxies + [IslandProxy(co.id, co.shapeType, group, mask)];
    co.handle := Some(Handle(group, mask));
    return true;
  }

  // ---------------------------------------------------------------------
  // Compound children

  /** A child of a compound shape: the child shape's identity and its local
      transform. */
  datatype ChildRecord = ChildRecord(shape: nat, local: Pose)

  /** The index of the first child whose shape is `child`, or -1. */
  function ChildIndex(children: seq<ChildRecord>, child: nat): (r: int)
    ensures -1 <= r < |children|
    ensures r >= 0 ==> children[r].shape == child && forall j :: 0 <= j < r ==> children[j].shape != child
    ensures r == -1 <==> forall j :: 0 <= j < |children| ==> children[j].shape != child
    decreases |children|
  {
    if children == [] then -1
    else if children[0].shape == child then 0
    else
      var r := ChildIndex(children[1..], child);
      if r == -1 then -1 else r + 1
  }

  class CompoundShape {
    var children: seq<ChildRecord>

    constructor (children: seq<ChildRecord>)
      ensures this.children == children
    {
      this.children := children;
    }

    /** The linear search `update_child` and `get_child_transform` share. */
    method FindChild(child: nat) returns (index: int)
      ensures index == ChildIndex(children, child)
    {
      index := -1;
      var i := 0;
      while i < |children|
        invariant 0 <= i <= |children|
        invariant forall j :: 0 <= j < i ==> children[j].shape != child
      {
        if children[i].shape == child {
          index := i;
          return;
        }
        i := i + 1;
      }
    }

    /** `update_child`: the first child holding `child` gets transform `tr`;
        a missing child changes nothing here. */
    method UpdateChild(child: nat, tr: Pose)
      modifies this
      ensures var i := ChildIndex(old(children), child);
              children == if i == -1 then old(children) else old(children)[i := ChildRecord(child, tr)]
    {
      var index := FindChild(child);
      if index != -1 {
        children := children[index := ChildRecord(child, tr)];
      }
    }

    /** `get_child_transform`: the local transform of the first child
        holding `child`, none for a missing child. */
    method GetChildTransform(child: nat) returns (tr: Option<Pose>)
      ensures tr.Some? <==> exists j :: 0 <= j < |children| && children[j].shape == child
      ensures tr.Some? ==> tr.value == children[ChildIndex(children, child)].local
    {
      var index := FindChild(child);
      if index == -1 {
        tr := None;
      } else {
        tr := Some(children[index].local);
      }
    }
  }

  /** After `update_child`, reading the child's transform gives what was
      written. */
  lemma UpdateThenGet(children: seq<ChildRecord>, child: nat, tr: Pose)
    requires ChildIndex(children, child) != -1
    ensures var i := ChildIndex(children, child);
            var c := children[i := ChildRecord(child, tr)];
            ChildIndex(c, child) == i && c[ChildIndex(c, child)].local == tr
  {
    var i := ChildIndex(children, child);
    var c := children[i := ChildRecord(child, tr)];
    assert forall j :: 0 <= j < i ==> c[j] == children[j];
    var r := ChildIndex(c, child);
    assert c[i].shape == child;
  }

  // ---------------------------------------------------------------------
  // Ghost pair callbacks and the sensor table

  /** What a ghost pair callback reads of an object. */
  datatype ObjView = ObjView(id: nat, isGhost: bool, otFlags: bv32)

  predicate IsSensor(v: ObjView) {
    v.isGhost && v.otFlags & OTF_SENSOR_GHOST_OBJECT == OTF_SENSOR_GHOST_OBJECT
  }

  /** The (sensor, other) registrations an overlapping pair makes: each
      object of the pair that is a sensor ghost is registered with the
      other. */
  function SensorRegistrations(v0: ObjView, v1: ObjView): (r: seq<(nat, nat)>)
    ensures (v0.id, v1.id) in r <==> IsSensor(v0) || (IsSensor(v1) && v1.id == v0.id)
    ensures |r| <= 2
  {
    (if IsSensor(v0) then [(v0.id, v1.id)] else []) + (if IsSensor(v1) then [(v1.id, v0.id)] else [])
  }

  /** The registrations do not depend on which object the broadphase
      reports first. */
  lemma RegistrationsSymmetric(v0: ObjView, v1: ObjView)
    ensures multiset(SensorRegistrations(v0, v1)) == multiset(SensorRegistrations(v1, v0))
  {
    var a := if IsSensor(v0) then [(v0.id, v1.id)] else [];
    var b := if IsSensor(v1) then [(v1.id, v0.id)] else [];
    assert SensorRegistrations(v0, v1) == a + b;
    assert SensorRegistrations(v1, v0) == b + a;
  }

  /** The callbacks as written: the second registration tests that the
      second object is a ghost but reads the first object's flags, which
      dereferences a null ghost when the first object is not a ghost
      (`None`). */
  function SensorRegistrationsAsWritten(v0: ObjView, v1: ObjView): (r: Option<seq<(nat, nat)>>)
    ensures r.None? <==> v1.isGhost && !v0.isGhost
  {
    if v1.isGhost && !v0.isGhost then None
    else Some((if IsSensor(v0) then [(v0.id, v1.id)] else []) +
              (if v1.isGhost && IsSensor(v0) then [(v1.id, v0.id)] else []))
  }

  /** A sensor ghost reported second next to a plain object crashes the
      callback as written, where it should be registered. */
  lemma AsWrittenFaultsOnSecondSensor()
    ensures var plain := ObjView(1, false, 0);
            var sensor := ObjView(2, true, OTF_SENSOR_GHOST_OBJECT);
            SensorRegistrationsAsWritten(plain, sensor).None? &&
            SensorRegistrations(plain, sensor) == [(2, 1)]
  {
  }

  /** As written, a ghost without the sensor flag is registered as a sensor
      when the other object of the pair is one. */
  lemma AsWrittenRegistersNonSensor()
    ensures var sensor := ObjView(1, true, OTF_SENSOR_GHOST_OBJECT);
            var occluder := ObjView(2, true, 0);
            SensorRegistrationsAsWritten(sensor, occluder) == Some([(1, 2), (2, 1)]) &&
            SensorRegistrations(sensor, occluder) == [(1, 2)]
  {
    var sensor := ObjView(1, true, OTF_SENSOR_GHOST_OBJECT);
    var occluder := ObjView(2, true, 0);
    assert IsSensor(sensor) && !IsSensor(occluder);
    assert SensorRegistrationsAsWritten(sensor, occluder) == Some([(1, 2)] + [(2, 1)]);
    assert SensorRegistrations(sensor, occluder) == [(1, 2)] + [];
    assert [(1, 2)] + [(2, 1)] == [(1, 2), (2, 1)] && [(1, 2)] + [] == [(1, 2)];
  }

  /** Where the as-written callback does not crash and the second object
      is not a ghost, it agrees with the corrected one. */
  lemma AsWrittenAgreesWithoutSecondGhost(v0: ObjView, v1: ObjView)
    requires !v1.isGhost
    ensures SensorRegistrationsAsWritten(v0, v1) == Some(SensorRegistrations(v0, v1))
  {
  }

  /** The registrations of a pair as a multiset: one per sensor ghost. */
  lemma RegistrationsMultiset(v0: ObjView, v1: ObjView)
    ensures multiset(SensorRegistrations(v0, v1)) ==
            (if IsSensor(v0) then multiset{(v0.id, v1.id)} else multiset{}) +
            (if IsSensor(v1) then multiset{(v1.id, v0.id)} else multiset{})
  {
    var a := if IsSensor(v0) then [(v0.id, v1.id)] else [];
    var b := if IsSensor(v1) then [(v1.id, v0.id)] else [];
    assert SensorRegistrations(v0, v1) == a + b;
  }

  /** Removing two registrations one after the other removes both. */
  lemma RemoveBoth(s: multiset<(nat, nat)>, a: multiset<(nat, nat)>, b: multiset<(nat, nat)>)
    ensures s - a - b == s - (a + b)
  {
    forall x ensures (s - a - b)[x] == (s - (a + b))[x] {
    }
  }

  /** The façade's view of the world: the objects added, the ghosts
      registered as terrain occluders, and the sensor table. */
  class Physics {
    var objects: seq<CollisionObject>
    var occluders: seq<CollisionObject>
    var sensors: multiset<(nat, nat)>

    constructor ()
      ensures objects == [] && occluders == [] && sensors == multiset{}
    {
      objects := [];
      occluders := [];
      sensors := multiset{};
    }

    /** `addOverlappingPair`, corrected: every sensor ghost of the pair is
        registered with the other object. */
    method AddOverlappingPair(v0: ObjView, v1: ObjView)
      modifies this
      ensures sensors == old(sensors) + multiset(SensorRegistrations(v0, v1))
      ensures objects == old(objects) && occluders == old(occluders)
    {
      if IsSensor(v0) {
        sensors := sensors + multiset{(v0.id, v1.id)};
      }
      if IsSensor(v1) {
        sensors := sensors + multiset{(v1.id, v0.id)};
      }
    }

    /** `removeOverlappingPair`, corrected: mirrors the addition, removing
        one registration for each. */
    method RemoveOverlappingPair(v0: ObjView, v1: ObjView)
      modifies this
      ensures sensors == old(sensors) - multiset(SensorRegistrations(v0, v1))
      ensures objects == old(objects) && occluders == old(occluders)
    {
      ghost var s0 := sensors;
      ghost var a := if IsSensor(v0) then multiset{(v0.id, v1.id)} else multiset{};
      ghost var b := if IsSensor(v1) then multiset{(v1.id, v0.id)} else multiset{};
      RegistrationsMultiset(v0, v1);
      if IsSensor(v0) {
        sensors := sensors - multiset{(v0.id, v1.id)};
      }
      assert sensors == s0 - a;
      if IsSensor(v1) {
        sensors := sensors - multiset{(v1.id, v0.id)};
      }
      assert sensors == s0 - a - b;
      RemoveBoth(s0, a, b);
    }

    /** `add_collision_object`: an inactive object is taken out of the
        simulation first; when the world refuses the object (`accepted`
        false) nothing else happens; otherwise it joins the world with a
        broadphase handle carrying its filter, and a ghost additionally gets
        no contact response, is hidden from debug drawing and is registered
        as a terrain occluder. */
    method AddCollisionObject(obj: CollisionObject, group: bv32, mask: bv32, inactive: bool, accepted: bool)
      returns (ok: bool)
      modifies this, obj
      ensures ok == accepted
      ensures obj.activationState == if inactive then DISABLE_SIMULATION else old(obj.activationState)
      ensures obj.collisionFlags ==
                if ok && obj.isGhost then old(obj.collisionFlags) | CF_NO_CONTACT_RESPONSE | CF_DISABLE_VISUALIZE_OBJECT
                else old(obj.collisionFlags)
      ensures objects == if ok then old(objects) + [obj] else old(objects)
      ensures obj.handle == if ok then Some(Handle(group, mask)) else old(obj.handle)
      ensures occluders == if ok && obj.isGhost then old(occluders) + [obj] else old(occluders)
      ensures sensors == old(sensors) && obj.transform == old(obj.transform) && obj.otFlags == old(obj.otFlags)
    {
      if inactive {
        obj.activationState := DISABLE_SIMULATION;
      }
      if !accepted {
        return false;
      }
      objects := objects + [obj];
      obj.handle := Some(Handle(group, mask));
      if obj.isGhost {
        obj.collisionFlags := obj.collisionFlags | CF_NO_CONTACT_RESPONSE | CF_DISABLE_VISUALIZE_OBJECT;
        occluders := occluders + [obj];
      }
      return true;
    }
  }

  /** Adding an overlapping pair and removing it again leaves the sensor
      table as it was. */
  lemma PairCallbacksRoundTrip(s: multiset<(nat, nat)>, v0: ObjView, v1: ObjView)
    ensures (s + multiset(SensorRegistrations(v0, v1))) - multiset(SensorRegistrations(v0, v1)) == s
  {
  }
}
