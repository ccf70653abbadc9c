/** Plain data shared by the terrain/tree contact bridge: vectors, triangles,
    trees, tree batches and their collision proxies, the per-pair flex context,
    and the external broadphase record. Floating point is modelled over `real`. */
module PhysicsCfg {

  /** The all-ones 32-bit value used throughout as "none". */
  const UMAX32: int := 0xffff_ffff

  /** 2^32, for explicit 32-bit wrap-around. */
  const TWO32: int := 0x1_0000_0000

  /** Number of tree slots (and collision-proxy slots) in one batch. */
  const TREE_BATCH_CAPACITY: int := 16

  /** Duration for which the custom tree handling runs, in seconds. */
  const MAX_COLLISION_DURATION: real := 0.15

  /** Its inverse, as the context stores it. */
  const MAX_COLLISION_DURATION_INV: real := 1.0 / 0.15

  datatype Option<T> = None | Some(value: T)

  newtype int8 = x: int | -128 <= x < 128

  /** An unsigned 16-bit value: the width of a tree's identifier. */
  newtype uint16 = x: int | 0 <= x < 0x1_0000

  type PosReal = r: real | r > 0.0 witness 1.0

  type NonNegReal = r: real | r >= 0.0

  datatype Vec3 = Vec3(x: real, y: real, z: real)
  {
    function Add(v: Vec3): Vec3 { Vec3(x + v.x, y + v.y, z + v.z) }
    function Sub(v: Vec3): Vec3 { Vec3(x - v.x, y - v.y, z - v.z) }
    function Scale(k: real): Vec3 { Vec3(k * x, k * y, k * z) }
    function Dot(v: Vec3): real { x * v.x + y * v.y + z * v.z }
    function Length2(): real { Dot(this) }
  }

  const ZERO: Vec3 := Vec3(0.0, 0.0, 0.0)

  function Cross(a: Vec3, b: Vec3): Vec3 {
    Vec3(a.y * b.z - a.z * b.y, a.z * b.x - a.x * b.z, a.x * b.y - a.y * b.x)
  }

  /** A rotation quaternion (w, x, y, z). */
  datatype Quat = Quat(w: real, x: real, y: real, z: real)

  /** `q * v` for a unit quaternion: v + 2w (u x v) + 2 u x (u x v),
      u = (x, y, z). A transform's basis set from q is modelled by q itself
      with this product. */
  function Rotate(q: Quat, v: Vec3): Vec3 {
    var u := Vec3(q.x, q.y, q.z);
    var t := Cross(u, v).Scale(2.0);
    v.Add(t.Scale(q.w)).Add(Cross(u, t))
  }

  /** A rigid world transform: rotation and origin. */
  datatype Pose = Pose(rot: Quat, origin: Vec3)

  /** A terrain triangle relative to a shared anchor (`parentOffset` names it). */
  datatype Triangle = Triangle(
    a: Vec3, b: Vec3, c: Vec3,
    tFlags: nat,
    idxA: nat, idxB: nat, idxC: nat,
    parentOffset: nat,
    triIdx: nat,
    fric: real, rollFric: real, rest: real)

  /** The full triangle constructor: vertices, indices, flags and offset are
      stored as given and the three material coefficients start at 1. */
  function MakeTriangle(va: Vec3, vb: Vec3, vc: Vec3, ia: nat, ib: nat, ic: nat,
                        flags: nat, offsetp: nat, triIdx: nat): (t: Triangle)
    ensures t.a == va && t.b == vb && t.c == vc
    ensures t.idxA == ia && t.idxB == ib && t.idxC == ic
    ensures t.tFlags == flags && t.parentOffset == offsetp && t.triIdx == triIdx
    ensures t.fric == 1.0 && t.rollFric == 1.0 && t.rest == 1.0
  {
    Triangle(va, vb, vc, flags, ia, ib, ic, offsetp, triIdx, 1.0, 1.0, 1.0)
  }

  /** A tree of the streamed vegetation. `springForceUv` is the two-byte
      break-state field; `identifier` is a 16-bit id stable across reloads. */
  datatype Tree = Tree(
    pos: Vec3,
    I: real, E: real, sigMax: real,
    radius: real, height: real, maxFlex: real,
    springForceUv: (int8, int8),
    identifier: uint16)

  /** The canonical "broken" pattern: first byte -128, second byte not -128. */
  predicate IsBroken(t: Tree) {
    t.springForceUv.0 == -128 && t.springForceUv.1 != -128
  }

  /** The quantities the stress rule divides by are positive and the yield
      stress is positive. */
  predicate IsPhysical(t: Tree) {
    t.I > 0.0 && t.radius > 0.0 && t.sigMax > 0.0
  }

  /** The tree with its transient spring state cleared. */
  function ClearSpring(t: Tree): (r: Tree)
    ensures r.springForceUv == (0, 0) && !IsBroken(r)
    ensures r.identifier == t.identifier && r.pos == t.pos && IsPhysical(r) == IsPhysical(t)
  {
    t.(springForceUv := (0, 0))
  }

  /** A collision proxy of one tree: a Y-axis capsule and a placeholder body
      at `origin`. `shapeLink` is the cache storage address the body's shape
      pointer was taken in; it is valid only while it equals the cache's
      current address. */
  datatype TreeProxy = TreeProxy(capsuleRadius: real, capsuleHeight: real, origin: Vec3, shapeLink: nat)

  /** A batch of up to 16 trees of one streaming cell with 16 proxy slots.
      `lastFrameUsed == UMAX32` means the proxies were never built. */
  datatype TreeBatch = TreeBatch(
    tm: nat, tmVersion: nat, idxInTm: nat,
    lastFrameUsed: nat,
    treeCount: nat,
    trees: seq<Tree>,
    info: seq<TreeProxy>)

  /** The fixed-capacity shape every batch has. */
  predicate WellFormedBatch(b: TreeBatch) {
    |b.trees| == TREE_BATCH_CAPACITY && |b.info| == TREE_BATCH_CAPACITY &&
    b.treeCount <= TREE_BATCH_CAPACITY
  }

  predicate PhysicalBatch(b: TreeBatch) {
    forall i :: 0 <= i < |b.trees| ==> IsPhysical(b.trees[i])
  }

  /** Byte offset of proxy slot `i` inside the batch's raw buffer, for a proxy
      record of `size` bytes: slot `i` occupies [offset, offset + size). */
  function InfoOffset(i: nat, size: nat): (off: nat)
    requires i < TREE_BATCH_CAPACITY
    ensures off == i * size
    ensures off + size <= TREE_BATCH_CAPACITY * size
    ensures i > 0 ==> off >= size
  {
    i * size
  }

  /** The batch destructor: the tree count becomes 0, nothing else changes. */
  function DestroyBatch(b: TreeBatch): (r: TreeBatch)
    ensures r.treeCount == 0
    ensures r.trees == b.trees && r.info == b.info && r.lastFrameUsed == b.lastFrameUsed
    ensures r.tm == b.tm && r.tmVersion == b.tmVersion && r.idxInTm == b.idxInTm
  {
    b.(treeCount := 0)
  }

  /** Per-pair flex/break state. */
  datatype TreeCollisionContext = TreeCollisionContext(
    treeIdentifier: nat,
    l: real,
    brakingForce: real,
    collisionDuration: real,
    collisionStarted: bool,
    customHandling: bool,
    forceApplyPt: Vec3,
    forceDir: Vec3,
    origTreeDir: Vec3)
  {
    function MaxCollisionDuration(): real { MAX_COLLISION_DURATION }
    function MaxCollisionDurationInv(): real { MAX_COLLISION_DURATION_INV }
  }

  /** A fresh context. The lever arm `l` is left uninitialised by the source;
      whatever value it holds is passed as `indeterminateL`. */
  function DefaultContext(indeterminateL: real): (c: TreeCollisionContext)
    ensures c.treeIdentifier == UMAX32
    ensures c.brakingForce == 0.0 && c.collisionDuration == 0.0
    ensures !c.collisionStarted && !c.customHandling
    ensures c.forceApplyPt == ZERO && c.forceDir == ZERO && c.origTreeDir == ZERO
  {
    TreeCollisionContext(UMAX32, indeterminateL, 0.0, 0.0, false, false, ZERO, ZERO, ZERO)
  }

  lemma DurationInverse()
    ensures MAX_COLLISION_DURATION_INV * MAX_COLLISION_DURATION == 1.0
    ensures MAX_COLLISION_DURATION == 0.15
  {
  }

  /** One registered object of an external broadphase. */
  datatype BroadphaseEntry = BroadphaseEntry(collisionObject: nat, collisionMask: bv32,
                                             collisionGroup: bv32, procedural: bool)

  function MakeBroadphaseEntry(colObj: nat, colMask: bv32, colGroup: bv32,
                               procedural: bool := false): (e: BroadphaseEntry)
    ensures e.collisionObject == colObj && e.collisionMask == colMask
    ensures e.collisionGroup == colGroup && e.procedural == procedural
  {
    BroadphaseEntry(colObj, colMask, colGroup, procedural)
  }

  /** Handle capacity of the sweep-and-prune index of an external broadphase. */
  const EXTERNAL_BROADPHASE_HANDLES: nat := 5000

  /** A proxy registered in an external broadphase index. */
  datatype IslandProxy = IslandProxy(obj: nat, shapeType: int, group: bv32, mask: bv32)

  /** A broadphase island: its own index (abstracted to the proxies it holds and
      its handle capacity), entries, procedurally owned objects and counters. */
  class ExternalBroadphase {
    var proxies: seq<IslandProxy>
    const maxHandles: nat
    var entries: seq<BroadphaseEntry>
    var proceduralObjects: seq<nat>
    var revision: nat
    var dirty: bool
    var wasUsedThisFrame: bool
    const boundsMin: Vec3
    const boundsMax: Vec3

    constructor (min: Vec3, max: Vec3)
      ensures revision == 0 && !dirty && !wasUsedThisFrame
      ensures proxies == [] && entries == [] && proceduralObjects == []
      ensures maxHandles == EXTERNAL_BROADPHASE_HANDLES
      ensures boundsMin == min && boundsMax == max
    {
      proxies := [];
      maxHandles := EXTERNAL_BROADPHASE_HANDLES;
      entries := [];
      proceduralObjects := [];
      revision := 0;
      dirty := false;
      wasUsedThisFrame := false;
      boundsMin := min;
      boundsMax := max;
    }

    /** The index has no free handle left. */
    predicate IsFull()
      reads this
    {
      |proxies| >= maxHandles
    }
  }
}
