/** The (body, tree) collision-pair record, its packed tree key, the key
    extractors of the debug tables, and the per-world statistics record. */
module TreePairs {
  import opened PhysicsCfg

  /** Reference duration of one custom tree collision, in seconds. */
  const TREE_COLLISION_TIME: real := 0.15

  /** Batch handles the 32-bit packed key can hold (28 bits). */
  const MAX_BATCH_ID: nat := 0x1000_0000

  /** The null manifold pointer. */
  const NULL_MANIFOLD: nat := 0

  /** `bid << 4 | tid` on a 32-bit unsigned value. */
  function PackTreeId(bid: nat, tid: nat): (id: nat)
    requires tid < TREE_BATCH_CAPACITY
    ensures id < TWO32
  {
    (bid * 16 + tid) % TWO32
  }

  /** `id >> 4` */
  function UnpackBatch(id: nat): nat { id / 16 }

  /** `id & 0xf` */
  function UnpackIndex(id: nat): (tid: nat)
    ensures tid < TREE_BATCH_CAPACITY
  {
    id % 16
  }

  /** Decoding a packed key gives back the batch handle and the in-batch
      index, as long as the handle fits in 28 bits. */
  lemma {:induction false} PackRoundTrip(bid: nat, tid: nat)
    requires bid < MAX_BATCH_ID && tid < TREE_BATCH_CAPACITY
    ensures UnpackBatch(PackTreeId(bid, tid)) == bid
    ensures UnpackIndex(PackTreeId(bid, tid)) == tid
  {
    var v := bid * 16 + tid;
    assert v < TWO32;
    assert v % TWO32 == v;
    assert v / 16 == bid;
    assert v % 16 == tid;
  }

  /** Hence distinct (batch, index) positions get distinct keys. */
  lemma PackInjective(b1: nat, t1: nat, b2: nat, t2: nat)
    requires b1 < MAX_BATCH_ID && t1 < TREE_BATCH_CAPACITY
    requires b2 < MAX_BATCH_ID && t2 < TREE_BATCH_CAPACITY
    ensures PackTreeId(b1, t1) == PackTreeId(b2, t2) <==> b1 == b2 && t1 == t2
  {
    PackRoundTrip(b1, t1);
    PackRoundTrip(b2, t2);
  }

  /** Without the 28-bit bound the key wraps and two trees share a key. */
  lemma PackWrapsAbove28Bits()
    ensures PackTreeId(MAX_BATCH_ID, 3) == PackTreeId(0, 3)
  {
  }

  /** One (body, tree) pair. `treeColInfo` is the packed tree key,
      `manifold` the pair's contact manifold (`NULL_MANIFOLD` when none). */
  datatype TreeCollisionPair = TreeCollisionPair(
    obj: nat,
    treeColInfo: nat,
    reused: bool,
    active: bool,
    manifold: nat,
    tcCtx: TreeCollisionContext)

  /** Pair equality compares only the body and the tree key. */
  predicate PairEq(a: TreeCollisionPair, b: TreeCollisionPair) {
    a.obj == b.obj && a.treeColInfo == b.treeColInfo
  }

  /** Two pairs built for 28-bit batch handles are equal exactly when they
      name the same body, batch and slot. */
  lemma PairEqMeansSameTree(a: TreeCollisionPair, b: TreeCollisionPair,
                            b1: nat, t1: nat, b2: nat, t2: nat)
    requires b1 < MAX_BATCH_ID && t1 < TREE_BATCH_CAPACITY
    requires b2 < MAX_BATCH_ID && t2 < TREE_BATCH_CAPACITY
    requires a.treeColInfo == PackTreeId(b1, t1) && b.treeColInfo == PackTreeId(b2, t2)
    ensures PairEq(a, b) <==> a.obj == b.obj && b1 == b2 && t1 == t2
  {
    PackInjective(b1, t1, b2, t2);
  }

  /** The default pair: null body, key 0, not reused, null manifold, fresh
      context. The `active` flag has no initialiser in the source's headers;
      the model starts pairs active. */
  function DefaultPair(indeterminateL: real): (p: TreeCollisionPair)
    ensures p.obj == 0 && p.treeColInfo == 0
    ensures !p.reused && p.manifold == NULL_MANIFOLD && p.active
    ensures p.tcCtx == DefaultContext(indeterminateL)
  {
    TreeCollisionPair(0, 0, false, true, NULL_MANIFOLD, DefaultContext(indeterminateL))
  }

  /** The three-argument constructor used as a search key. */
  function KeyPair(colObj: nat, bid: nat, tid: nat, indeterminateL: real): (p: TreeCollisionPair)
    requires tid < TREE_BATCH_CAPACITY
    ensures p == DefaultPair(indeterminateL).(obj := colObj, treeColInfo := PackTreeId(bid, tid))
    ensures UnpackIndex(p.treeColInfo) == tid
    ensures bid < MAX_BATCH_ID ==> UnpackBatch(p.treeColInfo) == bid
  {
    PackIndexSurvivesWrap(bid, tid);
    DefaultPair(indeterminateL).(obj := colObj, treeColInfo := PackTreeId(bid, tid))
  }

  /** The in-batch index survives packing even when the batch handle is too
      wide and the 32-bit key wraps; the handle survives only below 28 bits. */
  lemma PackIndexSurvivesWrap(bid: nat, tid: nat)
    requires tid < TREE_BATCH_CAPACITY
    ensures UnpackIndex(PackTreeId(bid, tid)) == tid
    ensures bid < MAX_BATCH_ID ==> UnpackBatch(PackTreeId(bid, tid)) == bid
  {
    var v := bid * 16 + tid;
    var w := v % TWO32;
    assert TWO32 == 16 * 0x1000_0000;
    assert w % 16 == tid by {
      assert v == w + (v / TWO32) * TWO32;
      assert (v / TWO32) * TWO32 == 16 * ((v / TWO32) * 0x1000_0000);
    }
    if bid < MAX_BATCH_ID {
      PackRoundTrip(bid, tid);
    }
  }

  /** `init_with`: sets the body, the packed key and the context's tree
      identifier, and nothing else. */
  function InitWith(p: TreeCollisionPair, colObj: nat, bid: nat, tid: nat, tree: Tree): (r: TreeCollisionPair)
    requires tid < TREE_BATCH_CAPACITY
    ensures r.obj == colObj && r.treeColInfo == PackTreeId(bid, tid)
    ensures r.tcCtx.treeIdentifier == TreeKey(tree) as int
    ensures r.tcCtx.treeIdentifier != UMAX32
    ensures r.reused == p.reused && r.active == p.active && r.manifold == p.manifold
    ensures r.tcCtx == p.tcCtx.(treeIdentifier := tree.identifier as int)
  {
    p.(obj := colObj, treeColInfo := PackTreeId(bid, tid),
       tcCtx := p.tcCtx.(treeIdentifier := tree.identifier as int))
  }

  /** A freshly initialised pair compares equal to the key it was found by. */
  lemma InitWithMatchesKey(colObj: nat, bid: nat, tid: nat, tree: Tree, l: real)
    requires tid < TREE_BATCH_CAPACITY
    ensures PairEq(InitWith(DefaultPair(l), colObj, bid, tid, tree), KeyPair(colObj, bid, tid, l))
  {
  }

  /** Live flex offset of a tree, for the debug table. */
  datatype TreeFlexInf = TreeFlexInf(flex: Vec3, treeIden: uint16)

  /** Hash key of a tree (pointer and reference overloads alike): the tree's
      16-bit identifier, which can never be the 32-bit "no tree" value a
      fresh context carries. */
  function TreeKey(t: Tree): (k: uint16)
    ensures k == t.identifier
    ensures k as int != DefaultContext(0.0).treeIdentifier
  {
    t.identifier
  }

  /** Hash key of a flex record (pointer and reference overloads alike), of
      the same 16-bit width, so equally distinct from "no tree". */
  function FlexKey(f: TreeFlexInf): (k: uint16)
    ensures k == f.treeIden
    ensures k as int != DefaultContext(0.0).treeIdentifier
  {
    f.treeIden
  }

  /** Initialising a default pair for a tree moves its context off the "no
      tree" identifier, to exactly that tree's key. */
  lemma InitWithLeavesDefault(colObj: nat, bid: nat, tid: nat, tree: Tree, l: real)
    requires tid < TREE_BATCH_CAPACITY
    ensures DefaultPair(l).tcCtx.treeIdentifier == UMAX32
    ensures InitWith(DefaultPair(l), colObj, bid, tid, tree).tcCtx.treeIdentifier != DefaultPair(l).tcCtx.treeIdentifier
    ensures InitWith(DefaultPair(l), colObj, bid, tid, tree).tcCtx.treeIdentifier == TreeKey(tree) as int
  {
  }

  /** The per-world statistics counters and phase timers. */
  class WorldStats {
    var trianglesProcessedCount: nat
    var treesProcessedCount: nat
    var totalTimeMs: real
    var broadPhaseTimeMs: real
    var triangleProcessingTimeMs: real
    var treeProcessingTimeMs: real
    var afterOtPhaseTimeMs: real
    var beforeOtPhaseTimeMs: real
    var triListConstructionTimeMs: real
    var broadAabbIntersectionsTimeMs: real
    var broadAabbIntersectionsCount: nat

    constructor ()
    {
    }

    /** Zeroes every counter and timer except the two broad-AABB ones. */
    method ResetStats()
      modifies this
      ensures trianglesProcessedCount == 0 && treesProcessedCount == 0
      ensures totalTimeMs == 0.0 && broadPhaseTimeMs == 0.0
      ensures triangleProcessingTimeMs == 0.0 && treeProcessingTimeMs == 0.0
      ensures afterOtPhaseTimeMs == 0.0 && beforeOtPhaseTimeMs == 0.0
      ensures triListConstructionTimeMs == 0.0
      ensures broadAabbIntersectionsTimeMs == old(broadAabbIntersectionsTimeMs)
      ensures broadAabbIntersectionsCount == old(broadAabbIntersectionsCount)
    {
      broadPhaseTimeMs := 0.0;
      totalTimeMs := 0.0;
      treeProcessingTimeMs := 0.0;
      triangleProcessingTimeMs := 0.0;
      triListConstructionTimeMs := 0.0;
      trianglesProcessedCount := 0;
      treesProcessedCount := 0;
      afterOtPhaseTimeMs := 0.0;
      beforeOtPhaseTimeMs := 0.0;
    }
  }
}
