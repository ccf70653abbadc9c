/** The terrain/tree bookkeeping of the dynamics world: per-body terrain
    manifold handles into a slot table, the tree-batch cache with its lazily
    built collision proxies, the (body, tree) pair table with its
    mark-and-sweep lifetime, and the repair pass run when the cache's
    storage moves. Bullet's dispatcher is an abstract manifold allocator;
    the terrain provider, the narrow phase and the tree deflection routine
    are oracles passed in by the caller. */
module DynamicsWorld {
  import opened PhysicsCfg
  import opened TreePairs
  import opened TreeFlex
  import CompoundFlatten

  /** A collision object of the world, as the terrain step sees it. Objects
      are named by a `nat` id (their address). */
  datatype Body = Body(
    isStatic: bool,
    shape: CompoundFlatten.Shape,
    trans: CompoundFlatten.Transform,
    sleeping: bool,
    handle: nat)

  /** The second body of a manifold: the planet, or the collision proxy in
      slot `tid` of batch `bid`, as stored at cache address `base`. */
  datatype Partner = Planet | TreeProxyAt(base: nat, bid: nat, tid: nat)

  /** A persistent manifold owned by the dispatcher. */
  datatype Manifold = Manifold(obj: nat, partner: Partner, points: seq<ContactPoint>)

  /** Whether the terrain step processes a body at all: rigid (not static),
      not asleep, and a sphere, capsule, other convex or compound shape. */
  predicate Processable(b: Body) {
    !b.isStatic && !b.shape.Concave? && !b.sleeping
  }

  predicate Distinct(s: seq<nat>) {
    forall i, j :: 0 <= i < j < |s| ==> s[i] != s[j]
  }

  /** The first position of `x` in `s`. */
  function IndexOf(s: seq<nat>, x: nat): (i: nat)
    requires x in s
    ensures i < |s| && s[i] == x
    ensures forall k :: 0 <= k < i ==> s[k] != x
  {
    if s[0] == x then 0 else 1 + IndexOf(s[1..], x)
  }

  /** Bullet's removal of `x` from the world's object list: the last object
      is swapped into the first position holding `x` and the list is
      popped. A list without `x` is left alone. */
  function SwapRemove(s: seq<nat>, x: nat): (r: seq<nat>)
    ensures x !in s ==> r == s
    ensures x in s ==> |r| == |s| - 1 && multiset(r) == multiset(s) - multiset{x}
    ensures x in s ==> forall k :: 0 <= k < |r| && k != IndexOf(s, x) ==> r[k] == s[k]
    ensures x in s && IndexOf(s, x) < |r| ==> r[IndexOf(s, x)] == s[|s| - 1]
  {
    if x !in s then s
    else
      var i := IndexOf(s, x);
      SwapPopMultiset(s, i);
      s[i := s[|s| - 1]][..|s| - 1]
  }

  /** Swapping the last entry into position `i` and popping removes one
      occurrence of `s[i]`. */
  lemma SwapPopMultiset(s: seq<nat>, i: nat)
    requires i < |s|
    ensures multiset(s[i := s[|s| - 1]][..|s| - 1]) == multiset(s) - multiset{s[i]}
  {
    var n := |s|;
    var r := s[i := s[n - 1]][..n - 1];
    if i == n - 1 {
      assert r == s[..n - 1];
      assert s == s[..n - 1] + [s[n - 1]];
    } else {
      assert s == s[..i] + [s[i]] + s[i + 1..n - 1] + [s[n - 1]];
      assert r == s[..i] + [s[n - 1]] + s[i + 1..n - 1];
    }
  }

  /** Removing from a duplicate-free list leaves exactly the other entries,
      still without duplicates. */
  lemma SwapRemoveDistinct(s: seq<nat>, x: nat)
    requires Distinct(s)
    ensures Distinct(SwapRemove(s, x))
    ensures forall y :: y in SwapRemove(s, x) <==> y in s && y != x
  {
    var r := SwapRemove(s, x);
    if x in s {
      var i := IndexOf(s, x);
      forall a, b | 0 <= a < b < |r| ensures r[a] != r[b] {
        if a == i {
          assert r[a] == s[|s| - 1] && r[b] == s[b];
        } else if b == i {
          assert r[a] == s[a] && r[b] == s[|s| - 1];
        } else {
          assert r[a] == s[a] && r[b] == s[b];
        }
      }
      forall y ensures y in r <==> y in s && y != x {
        assert y in r <==> y in multiset(r);
        assert y in s <==> y in multiset(s);
        if y == x {
          assert multiset(s)[x] == 1 by {
            DistinctCount(s, x);
          }
        }
      }
    }
  }

  /** In a duplicate-free list an entry occurs once. */
  lemma {:induction false} DistinctCount(s: seq<nat>, x: nat)
    requires Distinct(s) && x in s
    ensures multiset(s)[x] == 1
  {
    if s[0] == x {
      assert s == [s[0]] + s[1..];
      assert x !in s[1..] by {
        forall k | 0 <= k < |s[1..]| ensures s[1..][k] != x {
          assert s[1..][k] == s[k + 1];
        }
      }
    } else {
      assert s == [s[0]] + s[1..];
      assert Distinct(s[1..]) by {
        forall a, b | 0 <= a < b < |s[1..]| ensures s[1..][a] != s[1..][b] {
          assert s[1..][a] == s[a + 1] && s[1..][b] == s[b + 1];
        }
      }
      DistinctCount(s[1..], x);
    }
  }

  /** Removing a body from the table and the object list keeps the ids
      consistent. */
  lemma IdsOkRemove(bodies: map<nat, Body>, order: seq<nat>, manifolds: map<nat, Manifold>, next: nat, id: nat)
    requires IdsOk(bodies, order, manifolds, next)
    ensures IdsOk(bodies - {id}, SwapRemove(order, id), manifolds, next)
  {
    var r := SwapRemove(order, id);
    SwapRemoveDistinct(order, id);
    forall k | 0 <= k < |r| ensures r[k] in bodies - {id} {
      assert r[k] in r;
    }
  }

  /** The proxy `build_tb_collision_info` makes for tree `t`: a capsule of the
      tree's radius and height whose body sits half the height up the tree's
      axis (`up` is the unit vector of the tree's position), with its shape
      link taken at cache address `base`. */
  function BuiltProxy(t: Tree, up: Vec3, base: nat): (p: TreeProxy)
    ensures p.capsuleRadius == t.radius && p.capsuleHeight == t.height
    ensures p.origin == t.pos.Add(up.Scale(t.height * 0.5))
    ensures p.shapeLink == base
  {
    TreeProxy(t.radius, t.height, t.pos.Add(up.Scale(t.height * 0.5)), base)
  }

  /** Every built proxy of a batch links the shape stored at `base`. */
  predicate LinksAt(b: TreeBatch, base: nat)
    requires WellFormedBatch(b)
  {
    forall i :: 0 <= i < b.treeCount ==> b.info[i].shapeLink == base
  }

  /** A batch as the cache keeps it: well formed, physical trees and, once
      built, proxies linked to the current storage. */
  predicate BatchOk(b: TreeBatch, base: nat) {
    WellFormedBatch(b) && PhysicalBatch(b) && (b.lastFrameUsed != UMAX32 ==> LinksAt(b, base))
  }

  /** Bullet's persistent manifold holds at most four contact points. */
  const MANIFOLD_CACHE_SIZE: nat := 4

  /** The contact stages of one leaf as they act on the body's terrain
      manifold, from its points before to its points after. The persistent
      manifold adds a point, merges it into a close one or, when full,
      replaces one, so it never grows past four points and never loses all
      of them. */
  ghost predicate ContactOk(contact: seq<ContactPoint> -> seq<ContactPoint>) {
    forall pts {:trigger contact(pts)} :: |pts| <= MANIFOLD_CACHE_SIZE ==>
      |contact(pts)| <= MANIFOLD_CACHE_SIZE && (pts != [] ==> contact(pts) != [])
  }

  /** What the terrain provider reports for one leaf query: whether anything
      was found, the batches it appended to the cache, whether the cache's
      storage moved, the batches referenced by the query, the tree hit test,
      and what the triangle and collision-point stages do to the body's
      terrain manifold. */
  datatype TerrainAnswer = TerrainAnswer(
    hit: bool,
    grown: seq<TreeBatch>,
    moved: bool,
    refs: seq<nat>,
    treeHit: (nat, nat) -> bool,
    contact: seq<ContactPoint> -> seq<ContactPoint>)

  /** The provider's side of the contract, for a cache of `n` batches: a
      query that finds nothing leaves the cache alone; appended batches are
      well formed, physical and unbuilt; referenced batches exist and have
      handles that the packed key can hold; the contact stages behave as a
      persistent manifold does. */
  ghost predicate AnswerOk(a: TerrainAnswer, n: nat) {
    (!a.hit ==> a.grown == [] && !a.moved && a.refs == []) &&
    (forall k :: 0 <= k < |a.grown| ==>
       WellFormedBatch(a.grown[k]) && PhysicalBatch(a.grown[k]) && a.grown[k].lastFrameUsed == UMAX32) &&
    (forall k :: 0 <= k < |a.refs| ==> a.refs[k] < n + |a.grown| && a.refs[k] < MAX_BATCH_ID) &&
    ContactOk(a.contact)
  }

  /** The terrain provider: asked for body `obj`'s leaf work item in frame
      `frame`. */
  type Provider = (nat, CompoundFlatten.Entry, nat) -> TerrainAnswer

  /** Every answer of the provider keeps its side of the contract for a
      cache of `n` batches (or more). */
  ghost predicate ProviderOk(provider: Provider, n: nat) {
    forall o, e, f :: AnswerOk(provider(o, e, f), n)
  }

  lemma ProviderOkMono(provider: Provider, n: nat, n2: nat)
    requires ProviderOk(provider, n) && n <= n2
    ensures ProviderOk(provider, n2)
  {
    forall o, e, f ensures AnswerOk(provider(o, e, f), n2) {
      assert AnswerOk(provider(o, e, f), n);
    }
  }

  /** Whether a leaf reaches the contact stages: it is not concave (a
      concave leaf is never queried) and its query found something. */
  predicate Hits(obj: nat, e: CompoundFlatten.Entry, provider: Provider, frame: nat) {
    !e.shape.Concave? && provider(obj, e, frame).hit
  }

  /** A body's terrain manifold after one leaf, from its points `pts`
      before: unchanged unless the leaf hits, and otherwise what the leaf's
      contact stages leave. */
  function Contributed(obj: nat, e: CompoundFlatten.Entry, provider: Provider, frame: nat,
                       pts: seq<ContactPoint>): seq<ContactPoint> {
    if Hits(obj, e, provider, frame) then provider(obj, e, frame).contact(pts) else pts
  }

  /** The points a body's terrain manifold holds after all its leaves, in
      leaf order, starting from the cleared manifold. */
  function LeafPoints(obj: nat, items: seq<CompoundFlatten.Entry>, provider: Provider, frame: nat): (pts: seq<ContactPoint>)
    ensures items == [] ==> pts == []
  {
    if items == [] then []
    else Contributed(obj, items[|items| - 1], provider, frame, LeafPoints(obj, items[..|items| - 1], provider, frame))
  }

  /** With a provider that keeps its contract, a body's terrain manifold
      never holds more than four points; it has points only if some leaf
      hits; and once a leaf has left it points, it keeps some. */
  lemma {:induction false} LeafPointsBounded(obj: nat, items: seq<CompoundFlatten.Entry>, provider: Provider,
                                             n: nat, frame: nat)
    requires ProviderOk(provider, n)
    ensures |LeafPoints(obj, items, provider, frame)| <= MANIFOLD_CACHE_SIZE
    ensures LeafPoints(obj, items, provider, frame) != [] ==>
              exists k :: 0 <= k < |items| && Hits(obj, items[k], provider, frame)
    ensures forall j :: 0 <= j <= |items| && LeafPoints(obj, items[..j], provider, frame) != [] ==>
              LeafPoints(obj, items, provider, frame) != []
  {
    if items != [] {
      var init := items[..|items| - 1];
      var e := items[|items| - 1];
      LeafPointsBounded(obj, init, provider, n, frame);
      var pts := LeafPoints(obj, init, provider, frame);
      var a := provider(obj, e, frame);
      assert AnswerOk(a, n);
      if Hits(obj, e, provider, frame) {
        assert |a.contact(pts)| <= MANIFOLD_CACHE_SIZE;
        assert pts != [] ==> a.contact(pts) != [];
      } else if pts != [] {
        var k :| 0 <= k < |init| && Hits(obj, init[k], provider, frame);
        assert items[k] == init[k];
      }
      forall j | 0 <= j <= |items| && LeafPoints(obj, items[..j], provider, frame) != []
        ensures LeafPoints(obj, items, provider, frame) != []
      {
        if j < |items| {
          assert items[..j] == init[..j];
        } else {
          assert items[..j] == items;
        }
      }
    }
  }

  /** The points of a body: the leaves of its shape placed at its
      transform. */
  function BodyPoints(obj: nat, b: Body, provider: Provider, frame: nat): seq<ContactPoint> {
    LeafPoints(obj, CompoundFlatten.Leaves(CompoundFlatten.Entry(b.shape, b.trans)), provider, frame)
  }

  /** The manifold table kept every planet manifold except possibly `m`. */
  predicate PlanetKept(m1: map<nat, Manifold>, m2: map<nat, Manifold>, m: nat) {
    forall x :: x in m1 && x != m && m1[x].partner == Planet ==> x in m2 && m2[x] == m1[x]
  }

  /** Slot consistency only needs the planet manifolds to keep their owner. */
  lemma SlotsOkFramePlanet(bodies: map<nat, Body>, slots: seq<Option<nat>>, m1: map<nat, Manifold>, m2: map<nat, Manifold>)
    requires SlotsOk(bodies, slots, m1)
    requires forall x :: x in m1 && m1[x].partner == Planet ==> x in m2 && m2[x].obj == m1[x].obj && m2[x].partner == Planet
    ensures SlotsOk(bodies, slots, m2)
  {
    forall j | j in bodies ensures HandleOkIn(j, bodies, slots, m2) {
      assert HandleOkIn(j, bodies, slots, m1);
      var h := bodies[j].handle;
      if h != UMAX32 {
        assert m1[slots[h].value].partner == Planet;
      }
    }
  }

  /** Appending batches to the cache keeps every pair valid. */
  lemma PairsOkGrow(pairs: seq<TreeCollisionPair>, batches: seq<TreeBatch>, grown: seq<TreeBatch>,
                    base: nat, manifolds: map<nat, Manifold>)
    requires PairsOk(pairs, batches, base, manifolds)
    ensures PairsOk(pairs, batches + grown, base, manifolds)
  {
    forall k | 0 <= k < |pairs| ensures PairOkIn(pairs[k], batches + grown, base, manifolds) {
      assert PairOkIn(pairs[k], batches, base, manifolds);
      assert (batches + grown)[PairBatch(pairs[k])] == batches[PairBatch(pairs[k])];
    }
  }

  /** A frame's terrain manifold is never among the pairs' manifolds. */
  lemma PlanetNotInPairManifolds(pairs: seq<TreeCollisionPair>, batches: seq<TreeBatch>, base: nat,
                                 manifolds: map<nat, Manifold>)
    requires PairsOk(pairs, batches, base, manifolds)
    ensures forall x :: x in manifolds && manifolds[x].partner == Planet ==> x !in PairManifolds(pairs)
  {
    forall x | x in manifolds && manifolds[x].partner == Planet ensures x !in PairManifolds(pairs) {
      PlanetNotPaired(pairs, batches, base, manifolds, x);
    }
  }

  /** The batch after `build_tb_collision_info`: the proxy of every tree
      slot below the tree count is built from its tree; the other slots and
      all other fields are untouched. */
  function BuiltBatch(b: TreeBatch, base: nat, up: Vec3 -> Vec3): (r: TreeBatch)
    requires WellFormedBatch(b)
    ensures WellFormedBatch(r) && LinksAt(r, base)
    ensures r.trees == b.trees && r.treeCount == b.treeCount && r.lastFrameUsed == b.lastFrameUsed
    ensures r.tm == b.tm && r.tmVersion == b.tmVersion && r.idxInTm == b.idxInTm
    ensures forall i :: 0 <= i < b.treeCount ==> r.info[i] == BuiltProxy(b.trees[i], up(b.trees[i].pos), base)
    ensures forall i :: b.treeCount <= i < |b.info| ==> r.info[i] == b.info[i]
  {
    var info := seq(|b.info|, i requires 0 <= i < |b.info| =>
                    if i < b.treeCount then BuiltProxy(b.trees[i], up(b.trees[i].pos), base) else b.info[i]);
    assert forall i :: 0 <= i < b.treeCount ==> info[i] == BuiltProxy(b.trees[i], up(b.trees[i].pos), base);
    b.(info := info)
  }

  /** `build_tb_collision_info`, slot by slot. */
  method BuildTbCollisionInfo(b: TreeBatch, base: nat, up: Vec3 -> Vec3) returns (r: TreeBatch)
    requires WellFormedBatch(b)
    ensures r == BuiltBatch(b, base, up)
  {
    r := b;
    var i := 0;
    while i < b.treeCount
      invariant 0 <= i <= b.treeCount
      invariant r.trees == b.trees && r.treeCount == b.treeCount && r.lastFrameUsed == b.lastFrameUsed
      invariant r.tm == b.tm && r.tmVersion == b.tmVersion && r.idxInTm == b.idxInTm
      invariant |r.info| == |b.info|
      invariant forall k :: 0 <= k < i ==> r.info[k] == BuiltProxy(b.trees[k], up(b.trees[k].pos), base)
      invariant forall k :: i <= k < |b.info| ==> r.info[k] == b.info[k]
    {
      var t := b.trees[i];
      r := r.(info := r.info[i := BuiltProxy(t, up(t.pos), base)]);
      i := i + 1;
    }
    assert r.info == BuiltBatch(b, base, up).info;
  }

  /** A built batch relinked after the cache moved: every built proxy's
      shape link is retaken at the new address; nothing else changes. */
  function Relinked(b: TreeBatch, base: nat): (r: TreeBatch)
    requires WellFormedBatch(b)
    ensures WellFormedBatch(r) && LinksAt(r, base)
    ensures r.trees == b.trees && r.treeCount == b.treeCount && r.lastFrameUsed == b.lastFrameUsed
    ensures r.tm == b.tm && r.tmVersion == b.tmVersion && r.idxInTm == b.idxInTm
    ensures forall i :: 0 <= i < b.treeCount ==> r.info[i] == b.info[i].(shapeLink := base)
    ensures forall i :: b.treeCount <= i < |b.info| ==> r.info[i] == b.info[i]
  {
    b.(info := seq(|b.info|, i requires 0 <= i < |b.info| =>
         if i < b.treeCount then b.info[i].(shapeLink := base) else b.info[i]))
  }

  /** The first free slot of the slot table, or its length when every slot
      is taken. */
  method FreeSlot(slots: seq<Option<nat>>) returns (h: nat)
    ensures h <= |slots|
    ensures h < |slots| ==> slots[h].None?
    ensures forall g :: 0 <= g < h ==> slots[g].Some?
  {
    h := 0;
    while h < |slots| && slots[h].Some?
      invariant h <= |slots|
      invariant forall g :: 0 <= g < h ==> slots[g].Some?
    {
      h := h + 1;
    }
  }

  /** The pair-table search for a pair equal to `key`: the first match, or
      none when no pair is equal. */
  method FindPair(ps: seq<TreeCollisionPair>, key: TreeCollisionPair) returns (k: Option<nat>)
    ensures k.Some? ==> k.value < |ps| && PairEq(ps[k.value], key)
    ensures k.Some? ==> forall i :: 0 <= i < k.value ==> !PairEq(ps[i], key)
    ensures k.None? ==> forall i :: 0 <= i < |ps| ==> !PairEq(ps[i], key)
  {
    var i := 0;
    while i < |ps|
      invariant 0 <= i <= |ps|
      invariant forall j :: 0 <= j < i ==> !PairEq(ps[j], key)
    {
      if PairEq(ps[i], key) {
        return Some(i);
      }
      i := i + 1;
    }
    return None;
  }

  /** A body's handle is none, or an occupied slot whose manifold is a
      terrain manifold of that body. */
  predicate HandleOkIn(id: nat, bodies: map<nat, Body>, slots: seq<Option<nat>>, manifolds: map<nat, Manifold>)
    requires id in bodies
  {
    var h := bodies[id].handle;
    h == UMAX32 ||
    (h < |slots| && slots[h].Some? && slots[h].value in manifolds && manifolds[slots[h].value].obj == id)
  }

  /** Occupied slots hold distinct live terrain manifolds, each owned by the
      body whose handle is that slot; slot indices stay below the none
      value. */
  predicate SlotsOk(bodies: map<nat, Body>, slots: seq<Option<nat>>, manifolds: map<nat, Manifold>) {
    |slots| <= UMAX32 &&
    (forall h :: 0 <= h < |slots| && slots[h].Some? ==>
       slots[h].value in manifolds && manifolds[slots[h].value].partner == Planet &&
       manifolds[slots[h].value].obj in bodies && bodies[manifolds[slots[h].value].obj].handle == h) &&
    (forall h, g :: 0 <= h < g < |slots| && slots[h].Some? && slots[g].Some? ==>
       slots[h].value != slots[g].value) &&
    (forall id :: id in bodies ==> HandleOkIn(id, bodies, slots, manifolds))
  }

  predicate IdsOk(bodies: map<nat, Body>, order: seq<nat>, manifolds: map<nat, Manifold>, next: nat) {
    next > NULL_MANIFOLD &&
    (forall m :: m in manifolds ==> NULL_MANIFOLD < m < next) &&
    Distinct(order) &&
    (forall id :: id in bodies ==> id in order) &&
    (forall k :: 0 <= k < |order| ==> order[k] in bodies)
  }

  predicate BatchesOk(batches: seq<TreeBatch>, base: nat) {
    forall b :: 0 <= b < |batches| ==> BatchOk(batches[b], base)
  }

  /** A pair names a tree of a built batch, and owns a live manifold between
      its body and that tree's proxy at the current address. */
  predicate PairOkIn(p: TreeCollisionPair, batches: seq<TreeBatch>, base: nat, manifolds: map<nat, Manifold>) {
    var bid := UnpackBatch(p.treeColInfo);
    var tid := UnpackIndex(p.treeColInfo);
    bid < |batches| && tid < batches[bid].treeCount && batches[bid].lastFrameUsed != UMAX32 &&
    p.manifold in manifolds && manifolds[p.manifold].obj == p.obj &&
    manifolds[p.manifold].partner == TreeProxyAt(base, bid, tid)
  }

  /** Pairs are unique by (body, key) and own distinct manifolds. */
  predicate PairsOk(pairs: seq<TreeCollisionPair>, batches: seq<TreeBatch>, base: nat, manifolds: map<nat, Manifold>) {
    (forall k :: 0 <= k < |pairs| ==> PairOkIn(pairs[k], batches, base, manifolds)) &&
    (forall a, b :: 0 <= a < b < |pairs| ==>
       !PairEq(pairs[a], pairs[b]) && pairs[a].manifold != pairs[b].manifold)
  }

  /** Pair validity only depends on the owner and partner of each pair's
      manifold. */
  lemma PairsOkFrame(pairs: seq<TreeCollisionPair>, batches: seq<TreeBatch>, base: nat,
                     m1: map<nat, Manifold>, m2: map<nat, Manifold>)
    requires PairsOk(pairs, batches, base, m1)
    requires forall k :: 0 <= k < |pairs| ==>
               pairs[k].manifold in m2 && m2[pairs[k].manifold].obj == m1[pairs[k].manifold].obj &&
               m2[pairs[k].manifold].partner == m1[pairs[k].manifold].partner
    ensures PairsOk(pairs, batches, base, m2)
  {
    forall k | 0 <= k < |pairs| ensures PairOkIn(pairs[k], batches, base, m2) {
      assert PairOkIn(pairs[k], batches, base, m1);
    }
  }

  /** A terrain manifold is never a pair's manifold. */
  lemma PlanetNotPaired(pairs: seq<TreeCollisionPair>, batches: seq<TreeBatch>, base: nat,
                        manifolds: map<nat, Manifold>, m: nat)
    requires PairsOk(pairs, batches, base, manifolds)
    requires m in manifolds && manifolds[m].partner == Planet
    ensures forall k :: 0 <= k < |pairs| ==> pairs[k].manifold != m
  {
    forall k | 0 <= k < |pairs| ensures pairs[k].manifold != m {
      assert PairOkIn(pairs[k], batches, base, manifolds);
    }
  }

  /** Removing a body, together with the slot and the terrain manifold it
      holds, keeps the ids, the slot table and the pairs consistent. */
  lemma RemovalOk(bodies: map<nat, Body>, order: seq<nat>, slots: seq<Option<nat>>, manifolds: map<nat, Manifold>,
                  next: nat, pairs: seq<TreeCollisionPair>, batches: seq<TreeBatch>, base: nat, id: nat)
    requires IdsOk(bodies, order, manifolds, next) && SlotsOk(bodies, slots, manifolds)
    requires PairsOk(pairs, batches, base, manifolds) && id in bodies
    ensures bodies[id].handle == UMAX32 ==>
              IdsOk(bodies - {id}, SwapRemove(order, id), manifolds, next) &&
              SlotsOk(bodies - {id}, slots, manifolds)
    ensures var h := bodies[id].handle;
            h != UMAX32 ==>
              h < |slots| && slots[h].Some? &&
              IdsOk(bodies - {id}, SwapRemove(order, id), manifolds - {slots[h].value}, next) &&
              SlotsOk(bodies - {id}, slots[h := None], manifolds - {slots[h].value}) &&
              PairsOk(pairs, batches, base, manifolds - {slots[h].value})
  {
    SlotsOkRemove(bodies, slots, manifolds, id);
    IdsOkRemove(bodies, order, manifolds, next, id);
    if bodies[id].handle != UMAX32 {
      var m := slots[bodies[id].handle].value;
      PlanetNotPaired(pairs, batches, base, manifolds, m);
      PairsOkFrame(pairs, batches, base, manifolds, manifolds - {m});
    }
  }

  /** Removing a body together with its terrain slot and manifold keeps the
      slot table consistent. */
  lemma SlotsOkRemove(bodies: map<nat, Body>, slots: seq<Option<nat>>, manifolds: map<nat, Manifold>, id: nat)
    requires SlotsOk(bodies, slots, manifolds) && id in bodies
    ensures var h := bodies[id].handle;
            h != UMAX32 ==> h < |slots| && slots[h].Some? && slots[h].value in manifolds
    ensures var h := bodies[id].handle;
            h == UMAX32 ==> SlotsOk(bodies - {id}, slots, manifolds)
    ensures var h := bodies[id].handle;
            h != UMAX32 ==> SlotsOk(bodies - {id}, slots[h := None], manifolds - {slots[h].value})
  {
    var h := bodies[id].handle;
    assert HandleOkIn(id, bodies, slots, manifolds);
    var b2 := bodies - {id};
    if h == UMAX32 {
      forall j | j in b2 ensures HandleOkIn(j, b2, slots, manifolds) {
        assert HandleOkIn(j, bodies, slots, manifolds);
      }
    } else {
      var m := slots[h].value;
      var s2 := slots[h := None];
      var m2 := manifolds - {m};
      forall g | 0 <= g < |s2| && s2[g].Some?
        ensures s2[g].value in m2 && m2[s2[g].value].partner == Planet &&
                m2[s2[g].value].obj in b2 && b2[m2[s2[g].value].obj].handle == g
      {
        assert g != h;
        if g < h {
          assert slots[g].value != slots[h].value;
        } else {
          assert slots[h].value != slots[g].value;
        }
      }
      forall j | j in b2 ensures HandleOkIn(j, b2, s2, m2) {
        assert HandleOkIn(j, bodies, slots, manifolds);
      }
    }
  }

  /** A fresh manifold takes the next id, which no manifold holds yet. */
  lemma IdsOkAcquire(bodies: map<nat, Body>, order: seq<nat>, manifolds: map<nat, Manifold>, next: nat,
                     id: nat, h: nat)
    requires IdsOk(bodies, order, manifolds, next) && id in bodies
    ensures next !in manifolds
    ensures IdsOk(bodies[id := bodies[id].(handle := h)], order, manifolds[next := Manifold(id, Planet, [])], next + 1)
  {
    var b2 := bodies[id := bodies[id].(handle := h)];
    assert b2.Keys == bodies.Keys;
  }

  /** Taking the first free slot for a new terrain manifold of a body that
      held none keeps the slot table consistent. */
  lemma SlotsOkAcquire(bodies: map<nat, Body>, slots: seq<Option<nat>>, manifolds: map<nat, Manifold>,
                       id: nat, h: nat, m: nat)
    requires SlotsOk(bodies, slots, manifolds) && id in bodies && bodies[id].handle == UMAX32
    requires h <= |slots| && (h < |slots| ==> slots[h].None?) && h < UMAX32
    requires m !in manifolds
    ensures SlotsOk(bodies[id := bodies[id].(handle := h)],
                    if h < |slots| then slots[h := Some(m)] else slots + [Some(m)],
                    manifolds[m := Manifold(id, Planet, [])])
  {
    var b2 := bodies[id := bodies[id].(handle := h)];
    var s2 := if h < |slots| then slots[h := Some(m)] else slots + [Some(m)];
    var m2 := manifolds[m := Manifold(id, Planet, [])];
    forall g | 0 <= g < |s2| && s2[g].Some?
      ensures s2[g].value in m2 && m2[s2[g].value].partner == Planet &&
              m2[s2[g].value].obj in b2 && b2[m2[s2[g].value].obj].handle == g
    {
      if g != h {
        assert s2[g] == slots[g];
        assert manifolds[slots[g].value].obj != id;
      }
    }
    forall g, f | 0 <= g < f < |s2| && s2[g].Some? && s2[f].Some?
      ensures s2[g].value != s2[f].value
    {
      if g != h && f != h {
        assert s2[g] == slots[g] && s2[f] == slots[f];
      } else if g == h {
        assert s2[f] == slots[f];
      } else {
        assert s2[g] == slots[g];
      }
    }
    forall j | j in b2 ensures HandleOkIn(j, b2, s2, m2) {
      if j != id {
        assert HandleOkIn(j, bodies, slots, manifolds);
        if bodies[j].handle != UMAX32 {
          assert bodies[j].handle != h;
          assert s2[bodies[j].handle] == slots[bodies[j].handle];
        }
      }
    }
  }

  /** Filling a free slot with a fresh manifold disturbs no other slot. */
  lemma AcquireKeepsOthers(slots: seq<Option<nat>>, manifolds: map<nat, Manifold>, h: nat, m: nat, mf: Manifold, id: nat)
    requires h <= |slots| && (h < |slots| ==> slots[h].None?) && m !in manifolds
    ensures OthersKept(slots, manifolds, if h < |slots| then slots[h := Some(m)] else slots + [Some(m)],
                       manifolds[m := mf], id)
  {
  }

  /** Releasing a body's terrain manifold and freeing its slot keeps the
      slot table consistent. */
  lemma SlotsOkRelease(bodies: map<nat, Body>, slots: seq<Option<nat>>, manifolds: map<nat, Manifold>, id: nat)
    requires SlotsOk(bodies, slots, manifolds) && id in bodies && bodies[id].handle != UMAX32
    ensures bodies[id].handle < |slots| && slots[bodies[id].handle].Some?
    ensures var h := bodies[id].handle;
            SlotsOk(bodies[id := bodies[id].(handle := UMAX32)], slots[h := None], manifolds - {slots[h].value})
  {
    var h := bodies[id].handle;
    assert HandleOkIn(id, bodies, slots, manifolds);
    var m := slots[h].value;
    var b2 := bodies[id := bodies[id].(handle := UMAX32)];
    var s2 := slots[h := None];
    var m2 := manifolds - {m};
    forall g | 0 <= g < |s2| && s2[g].Some?
      ensures s2[g].value in m2 && m2[s2[g].value].partner == Planet &&
              m2[s2[g].value].obj in b2 && b2[m2[s2[g].value].obj].handle == g
    {
      if g < h {
        assert slots[g].value != slots[h].value;
      } else {
        assert slots[h].value != slots[g].value;
      }
    }
    forall j | j in b2 ensures HandleOkIn(j, b2, s2, m2) {
      assert HandleOkIn(j, bodies, slots, manifolds);
    }
  }

  /** Slot consistency only depends on the owner and partner of each
      occupied slot's manifold. */
  lemma SlotsOkFrame(bodies: map<nat, Body>, slots: seq<Option<nat>>, m1: map<nat, Manifold>, m2: map<nat, Manifold>)
    requires SlotsOk(bodies, slots, m1)
    requires forall m :: m in m1 ==> m in m2 && m2[m].obj == m1[m].obj && m2[m].partner == m1[m].partner
    ensures SlotsOk(bodies, slots, m2)
  {
    forall j | j in bodies ensures HandleOkIn(j, bodies, slots, m2) {
      assert HandleOkIn(j, bodies, slots, m1);
    }
  }

  /** Where a pair's tree sits in the cache. */
  function PairBatch(p: TreeCollisionPair): nat { UnpackBatch(p.treeColInfo) }
  function PairSlot(p: TreeCollisionPair): nat { UnpackIndex(p.treeColInfo) }

  /** The manifolds owned by pairs. */
  function PairManifolds(pairs: seq<TreeCollisionPair>): set<nat> {
    set k | 0 <= k < |pairs| :: pairs[k].manifold
  }

  /** Every batch has the fixed capacity and physical trees. */
  predicate BatchesShaped(batches: seq<TreeBatch>) {
    forall b :: 0 <= b < |batches| ==> WellFormedBatch(batches[b]) && PhysicalBatch(batches[b])
  }

  /** A batch after `repair_tree_batches`: relinked when built, untouched
      otherwise. */
  function Repaired(b: TreeBatch, base: nat): (r: TreeBatch)
    requires WellFormedBatch(b)
    ensures WellFormedBatch(r) && r.trees == b.trees && r.treeCount == b.treeCount
    ensures r.lastFrameUsed == b.lastFrameUsed
    ensures b.lastFrameUsed != UMAX32 ==> LinksAt(r, base)
  {
    if b.lastFrameUsed != UMAX32 then Relinked(b, base) else b
  }

  /** A batch as `prepare_tree_collision_pairs` leaves it: its proxies built
      if they were not yet, and stamped with the frame. */
  function Stamped(b: TreeBatch, frame: nat, base: nat, up: Vec3 -> Vec3): (r: TreeBatch)
    requires WellFormedBatch(b)
    ensures WellFormedBatch(r) && r.trees == b.trees && r.treeCount == b.treeCount
    ensures r.lastFrameUsed == frame
    ensures b.lastFrameUsed == UMAX32 ==> LinksAt(r, base)
    ensures b.lastFrameUsed != UMAX32 ==> r.info == b.info
  {
    (if b.lastFrameUsed == UMAX32 then BuiltBatch(b, base, up) else b).(lastFrameUsed := frame)
  }

  /** Stamping with any frame other than the none value keeps a cached batch
      consistent. */
  lemma StampedOk(b: TreeBatch, frame: nat, base: nat, up: Vec3 -> Vec3)
    requires BatchOk(b, base) && frame != UMAX32
    ensures BatchOk(Stamped(b, frame, base, up), base)
  {
    var r := Stamped(b, frame, base, up);
    if b.lastFrameUsed != UMAX32 {
      assert LinksAt(b, base);
      assert forall i :: 0 <= i < r.treeCount ==> r.info[i] == b.info[i];
    }
  }

  /** Pair validity only depends on each batch's tree count and on whether
      it is built. */
  lemma PairsOkBatchFrame(pairs: seq<TreeCollisionPair>, b1: seq<TreeBatch>, b2: seq<TreeBatch>,
                          base: nat, manifolds: map<nat, Manifold>)
    requires PairsOk(pairs, b1, base, manifolds) && |b1| == |b2|
    requires forall b :: 0 <= b < |b1| ==>
               b2[b].treeCount == b1[b].treeCount && (b1[b].lastFrameUsed != UMAX32 ==> b2[b].lastFrameUsed != UMAX32)
    ensures PairsOk(pairs, b2, base, manifolds)
  {
    forall k | 0 <= k < |pairs| ensures PairOkIn(pairs[k], b2, base, manifolds) {
      assert PairOkIn(pairs[k], b1, base, manifolds);
    }
  }

  /** `p2` keeps every pair of `p1` in place, changing at most its reused
      mark, which it never clears, and may append pairs. */
  predicate PairsExtend(p1: seq<TreeCollisionPair>, p2: seq<TreeCollisionPair>) {
    |p1| <= |p2| &&
    forall k :: 0 <= k < |p1| ==> p2[k] == p1[k].(reused := p2[k].reused) && (p1[k].reused ==> p2[k].reused)
  }

  lemma PairsExtendTrans(p1: seq<TreeCollisionPair>, p2: seq<TreeCollisionPair>, p3: seq<TreeCollisionPair>)
    requires PairsExtend(p1, p2) && PairsExtend(p2, p3)
    ensures PairsExtend(p1, p3)
  {
    forall k | 0 <= k < |p1| ensures p3[k] == p1[k].(reused := p3[k].reused) && (p1[k].reused ==> p3[k].reused) {
      assert p2[k] == p1[k].(reused := p2[k].reused);
    }
  }

  /** Body `obj` has a pair marked reused with the tree in slot `tid` of
      batch `bid`. */
  predicate Covered(pairs: seq<TreeCollisionPair>, obj: nat, bid: nat, tid: nat) {
    tid < TREE_BATCH_CAPACITY &&
    exists k :: 0 <= k < |pairs| && pairs[k].obj == obj && pairs[k].treeColInfo == PackTreeId(bid, tid) &&
                pairs[k].reused
  }

  lemma CoveredExtend(p1: seq<TreeCollisionPair>, p2: seq<TreeCollisionPair>, obj: nat, bid: nat, tid: nat)
    requires Covered(p1, obj, bid, tid) && PairsExtend(p1, p2)
    ensures Covered(p2, obj, bid, tid)
  {
    var k :| 0 <= k < |p1| && p1[k].obj == obj && p1[k].treeColInfo == PackTreeId(bid, tid) && p1[k].reused;
    assert p2[k] == p1[k].(reused := p2[k].reused);
  }

  /** Pair `k` of `p2` was marked reused by this pass, not before it. */
  predicate NewlyMarked(p1: seq<TreeCollisionPair>, p2: seq<TreeCollisionPair>, k: nat)
    requires k < |p2|
  {
    p2[k].reused && !(k < |p1| && p1[k].reused)
  }

  /** The tree of a pair's slot, in cache `batches`. */
  function PairTree(p: TreeCollisionPair, batches: seq<TreeBatch>): Tree
    requires PairBatch(p) < |batches| && PairSlot(p) < |batches[PairBatch(p)].trees|
  {
    batches[PairBatch(p)].trees[PairSlot(p)]
  }

  /** The pairs appended after `p1` are initialised from their key and tree
      in `batches`, marked reused, and own the consecutive fresh manifolds
      from `next`, each a contact-free manifold between the body and the
      tree's proxy at `base`. */
  predicate FreshPairs(p1: seq<TreeCollisionPair>, p2: seq<TreeCollisionPair>, next: nat,
                       batches: seq<TreeBatch>, base: nat, manifolds: map<nat, Manifold>, l: real) {
    |p1| <= |p2| &&
    forall k :: |p1| <= k < |p2| ==>
      PairBatch(p2[k]) < |batches| && PairSlot(p2[k]) < |batches[PairBatch(p2[k])].trees| &&
      p2[k] == InitWith(DefaultPair(l), p2[k].obj, PairBatch(p2[k]), PairSlot(p2[k]), PairTree(p2[k], batches))
               .(manifold := next + (k - |p1|), reused := true) &&
      p2[k].manifold in manifolds &&
      manifolds[p2[k].manifold] == Manifold(p2[k].obj, TreeProxyAt(base, PairBatch(p2[k]), PairSlot(p2[k])), [])
  }

  lemma FreshPairsTrans(p1: seq<TreeCollisionPair>, p2: seq<TreeCollisionPair>, p3: seq<TreeCollisionPair>,
                        n1: nat, batches: seq<TreeBatch>, base: nat,
                        m2: map<nat, Manifold>, m3: map<nat, Manifold>, l: real)
    requires FreshPairs(p1, p2, n1, batches, base, m2, l)
    requires FreshPairs(p2, p3, n1 + (|p2| - |p1|), batches, base, m3, l)
    requires PairsExtend(p2, p3)
    requires forall m :: m in m2 ==> m in m3 && m3[m] == m2[m]
    ensures FreshPairs(p1, p3, n1, batches, base, m3, l)
  {
    forall k | |p1| <= k < |p2| ensures p3[k] == p2[k] {
      assert p3[k] == p2[k].(reused := p3[k].reused);
    }
  }

  /** Batches with the same trees and tree counts. */
  predicate SameTrees(b1: seq<TreeBatch>, b2: seq<TreeBatch>) {
    |b1| == |b2| && forall b :: 0 <= b < |b1| ==> b2[b].trees == b1[b].trees && b2[b].treeCount == b1[b].treeCount
  }

  lemma FreshPairsTrees(p1: seq<TreeCollisionPair>, p2: seq<TreeCollisionPair>, next: nat,
                        b1: seq<TreeBatch>, b2: seq<TreeBatch>, base: nat, manifolds: map<nat, Manifold>, l: real)
    requires FreshPairs(p1, p2, next, b2, base, manifolds, l) && SameTrees(b1, b2)
    ensures FreshPairs(p1, p2, next, b1, base, manifolds, l)
  {
    forall k | |p1| <= k < |p2| ensures PairTree(p2[k], b1) == PairTree(p2[k], b2) {
      assert b2[PairBatch(p2[k])].trees == b1[PairBatch(p2[k])].trees;
    }
  }

  /** The manifold table grew by the ids `[n1, n2)` and kept every entry. */
  predicate ManifoldsGrown(m1: map<nat, Manifold>, m2: map<nat, Manifold>, n1: nat, n2: nat) {
    n1 <= n2 &&
    (forall m :: m in m1 ==> m in m2 && m2[m] == m1[m]) &&
    (forall m :: m in m2 ==> m in m1 || n1 <= m < n2)
  }

  /** The pair and manifold tables after a run of find-or-adds: old pairs
      kept, appended pairs fresh, manifold ids `[n1, n2)` added. */
  predicate Grown(p1: seq<TreeCollisionPair>, p2: seq<TreeCollisionPair>, n1: nat, n2: nat,
                  m1: map<nat, Manifold>, m2: map<nat, Manifold>, batches: seq<TreeBatch>, base: nat, l: real) {
    PairsExtend(p1, p2) && n2 == n1 + (|p2| - |p1|) &&
    FreshPairs(p1, p2, n1, batches, base, m2, l) && ManifoldsGrown(m1, m2, n1, n2)
  }

  lemma GrownTrans(p1: seq<TreeCollisionPair>, p2: seq<TreeCollisionPair>, p3: seq<TreeCollisionPair>,
                   n1: nat, n2: nat, n3: nat, m1: map<nat, Manifold>, m2: map<nat, Manifold>, m3: map<nat, Manifold>,
                   b1: seq<TreeBatch>, b2: seq<TreeBatch>, base: nat, l: real)
    requires Grown(p1, p2, n1, n2, m1, m2, b1, base, l)
    requires Grown(p2, p3, n2, n3, m2, m3, b2, base, l)
    requires SameTrees(b1, b2)
    ensures Grown(p1, p3, n1, n3, m1, m3, b1, base, l)
  {
    PairsExtendTrans(p1, p2, p3);
    FreshPairsTrees(p2, p3, n2, b1, b2, base, m3, l);
    FreshPairsTrans(p1, p2, p3, n1, b1, base, m2, m3, l);
  }

  /** A pair is one that preparing body `obj` against the batches `refs`
      may mark: its tree is in a referenced batch, below the tree count, not
      broken, and passes the hit test. */
  predicate Candidate(p: TreeCollisionPair, obj: nat, refs: seq<nat>, treeHit: (nat, nat) -> bool,
                      batches: seq<TreeBatch>) {
    p.obj == obj && PairBatch(p) in refs && PairBatch(p) < |batches| &&
    PairSlot(p) < batches[PairBatch(p)].treeCount && PairSlot(p) < |batches[PairBatch(p)].trees| &&
    !IsBroken(PairTree(p, batches)) && treeHit(PairBatch(p), PairSlot(p))
  }

  /** Stamping twice in one frame is stamping once. */
  lemma StampedTwice(b: TreeBatch, frame: nat, base: nat, up: Vec3 -> Vec3)
    requires WellFormedBatch(b) && frame != UMAX32
    ensures Stamped(Stamped(b, frame, base, up), frame, base, up) == Stamped(b, frame, base, up)
  {
  }

  /** The cache after preparing the first `i` referenced batches. */
  predicate StampedUpTo(bs: seq<TreeBatch>, b0: seq<TreeBatch>, refs: seq<nat>, i: nat,
                        frame: nat, base: nat, up: Vec3 -> Vec3)
    requires BatchesShaped(b0) && i <= |refs|
  {
    |bs| == |b0| &&
    forall b :: 0 <= b < |bs| ==> bs[b] == if b in refs[..i] then Stamped(b0[b], frame, base, up) else b0[b]
  }

  lemma StampedUpToStep(bs1: seq<TreeBatch>, bs2: seq<TreeBatch>, b0: seq<TreeBatch>, refs: seq<nat>, i: nat,
                        frame: nat, base: nat, up: Vec3 -> Vec3)
    requires BatchesShaped(b0) && i < |refs| && refs[i] < |b0| && frame != UMAX32
    requires StampedUpTo(bs1, b0, refs, i, frame, base, up)
    requires bs2 == bs1[refs[i] := Stamped(bs1[refs[i]], frame, base, up)]
    ensures StampedUpTo(bs2, b0, refs, i + 1, frame, base, up)
  {
    assert refs[..i + 1] == refs[..i] + [refs[i]];
    if refs[i] in refs[..i] {
      StampedTwice(b0[refs[i]], frame, base, up);
    }
  }

  /** Newly marked pairs of two successive passes are candidates of the
      combined pass. */
  lemma MarkedStep(p0: seq<TreeCollisionPair>, p1: seq<TreeCollisionPair>, p2: seq<TreeCollisionPair>,
                   obj: nat, refs: seq<nat>, i: nat, treeHit: (nat, nat) -> bool,
                   b0: seq<TreeBatch>, bs1: seq<TreeBatch>)
    requires i < |refs| && PairsExtend(p0, p1) && PairsExtend(p1, p2) && SameTrees(b0, bs1)
    requires forall k :: 0 <= k < |p1| && NewlyMarked(p0, p1, k) ==> Candidate(p1[k], obj, refs[..i], treeHit, b0)
    requires forall k :: 0 <= k < |p2| && NewlyMarked(p1, p2, k) ==> Candidate(p2[k], obj, [refs[i]], treeHit, bs1)
    ensures forall k :: 0 <= k < |p2| && NewlyMarked(p0, p2, k) ==> Candidate(p2[k], obj, refs[..i + 1], treeHit, b0)
  {
    assert refs[..i + 1] == refs[..i] + [refs[i]];
    forall k | 0 <= k < |p2| && NewlyMarked(p0, p2, k)
      ensures Candidate(p2[k], obj, refs[..i + 1], treeHit, b0)
    {
      if !NewlyMarked(p1, p2, k) {
        assert k < |p1| && NewlyMarked(p0, p1, k);
        assert p2[k] == p1[k].(reused := p2[k].reused);
        assert Candidate(p1[k], obj, refs[..i], treeHit, b0);
      } else {
        assert Candidate(p2[k], obj, [refs[i]], treeHit, bs1);
        assert bs1[PairBatch(p2[k])].trees == b0[PairBatch(p2[k])].trees;
      }
    }
  }

  /** Trees covered by the first `i` referenced batches stay covered. */
  predicate CoveredUpTo(pairs: seq<TreeCollisionPair>, obj: nat, refs: seq<nat>, i: nat,
                        treeHit: (nat, nat) -> bool, b0: seq<TreeBatch>)
    requires BatchesShaped(b0) && i <= |refs| && forall r :: 0 <= r < |refs| ==> refs[r] < |b0|
  {
    forall r, j :: 0 <= r < i && 0 <= j < b0[refs[r]].treeCount &&
                   !IsBroken(b0[refs[r]].trees[j]) && treeHit(refs[r], j) ==>
      Covered(pairs, obj, refs[r], j)
  }

  lemma CoveredStep(p1: seq<TreeCollisionPair>, p2: seq<TreeCollisionPair>, obj: nat, refs: seq<nat>, i: nat,
                    treeHit: (nat, nat) -> bool, b0: seq<TreeBatch>)
    requires BatchesShaped(b0) && i < |refs| && forall r :: 0 <= r < |refs| ==> refs[r] < |b0|
    requires CoveredUpTo(p1, obj, refs, i, treeHit, b0) && PairsExtend(p1, p2)
    requires forall j :: (0 <= j < b0[refs[i]].treeCount && !IsBroken(b0[refs[i]].trees[j]) &&
                          treeHit(refs[i], j)) ==> Covered(p2, obj, refs[i], j)
    ensures CoveredUpTo(p2, obj, refs, i + 1, treeHit, b0)
  {
    forall r, j | 0 <= r < i + 1 && 0 <= j < b0[refs[r]].treeCount &&
                  !IsBroken(b0[refs[r]].trees[j]) && treeHit(refs[r], j)
      ensures Covered(p2, obj, refs[r], j)
    {
      if r < i {
        CoveredExtend(p1, p2, obj, refs[r], j);
      }
    }
  }

  /** Newly marked pairs after the first `j` trees of batch `bid` (with
      trees `trees`) name one of those trees that is unbroken and hit. */
  predicate MarkedInBatch(p0: seq<TreeCollisionPair>, p: seq<TreeCollisionPair>, obj: nat, bid: nat, j: nat,
                          trees: seq<Tree>, treeHit: (nat, nat) -> bool) {
    forall k :: 0 <= k < |p| && NewlyMarked(p0, p, k) ==>
      p[k].obj == obj && PairBatch(p[k]) == bid && PairSlot(p[k]) < j && PairSlot(p[k]) < |trees| &&
      !IsBroken(trees[PairSlot(p[k])]) && treeHit(bid, PairSlot(p[k]))
  }

  lemma MarkedInBatchStep(p0: seq<TreeCollisionPair>, p1: seq<TreeCollisionPair>, p2: seq<TreeCollisionPair>,
                          obj: nat, bid: nat, j: nat, trees: seq<Tree>, treeHit: (nat, nat) -> bool)
    requires MarkedInBatch(p0, p1, obj, bid, j, trees, treeHit) && PairsExtend(p0, p1) && PairsExtend(p1, p2)
    requires j < |trees| && !IsBroken(trees[j]) && treeHit(bid, j)
    requires forall k :: 0 <= k < |p2| && NewlyMarked(p1, p2, k) ==>
               p2[k].obj == obj && PairBatch(p2[k]) == bid && PairSlot(p2[k]) == j
    ensures MarkedInBatch(p0, p2, obj, bid, j + 1, trees, treeHit)
  {
    forall k | 0 <= k < |p2| && NewlyMarked(p0, p2, k)
      ensures p2[k].obj == obj && PairBatch(p2[k]) == bid && PairSlot(p2[k]) < j + 1 && PairSlot(p2[k]) < |trees| &&
              !IsBroken(trees[PairSlot(p2[k])]) && treeHit(bid, PairSlot(p2[k]))
    {
      if !NewlyMarked(p1, p2, k) {
        assert k < |p1| && NewlyMarked(p0, p1, k);
        assert p2[k] == p1[k].(reused := p2[k].reused);
      }
    }
  }

  lemma MarkedInBatchCandidate(p0: seq<TreeCollisionPair>, p: seq<TreeCollisionPair>, obj: nat, bid: nat,
                               treeHit: (nat, nat) -> bool, batches: seq<TreeBatch>)
    requires bid < |batches| && WellFormedBatch(batches[bid])
    requires MarkedInBatch(p0, p, obj, bid, batches[bid].treeCount, batches[bid].trees, treeHit)
    ensures forall k :: 0 <= k < |p| && NewlyMarked(p0, p, k) ==> Candidate(p[k], obj, [bid], treeHit, batches)
  {
  }

  /** Every unbroken, hit tree among the first `j` of batch `bid` is covered. */
  predicate CoveredInBatch(pairs: seq<TreeCollisionPair>, obj: nat, bid: nat, j: nat, trees: seq<Tree>,
                           treeHit: (nat, nat) -> bool) {
    forall i :: 0 <= i < j && i < |trees| && !IsBroken(trees[i]) && treeHit(bid, i) ==> Covered(pairs, obj, bid, i)
  }

  lemma CoveredInBatchStep(p1: seq<TreeCollisionPair>, p2: seq<TreeCollisionPair>, obj: nat, bid: nat, j: nat,
                           trees: seq<Tree>, treeHit: (nat, nat) -> bool)
    requires CoveredInBatch(p1, obj, bid, j, trees, treeHit) && PairsExtend(p1, p2)
    requires j < |trees| && (!IsBroken(trees[j]) && treeHit(bid, j) ==> Covered(p2, obj, bid, j))
    ensures CoveredInBatch(p2, obj, bid, j + 1, trees, treeHit)
  {
    forall i | 0 <= i < j + 1 && i < |trees| && !IsBroken(trees[i]) && treeHit(bid, i)
      ensures Covered(p2, obj, bid, i)
    {
      if i < j {
        CoveredExtend(p1, p2, obj, bid, i);
      }
    }
  }

  /** The pair `prepare_tree_collision_pairs` appends for a tree: initialised
      from the key and the tree, marked reused, owning manifold `m`. */
  function NewPair(obj: nat, bid: nat, tid: nat, tree: Tree, m: nat, l: real): TreeCollisionPair
    requires tid < TREE_BATCH_CAPACITY
  {
    InitWith(DefaultPair(l), obj, bid, tid, tree).(manifold := m, reused := true)
  }

  /** Marking the pair found equal to the key keeps the table consistent,
      covers the tree, and marks nothing else. */
  lemma TouchExisting(pairs: seq<TreeCollisionPair>, batches: seq<TreeBatch>, base: nat,
                      manifolds: map<nat, Manifold>, next: nat, l: real, k: nat, obj: nat, bid: nat, tid: nat)
    requires PairsOk(pairs, batches, base, manifolds) && bid < MAX_BATCH_ID && tid < TREE_BATCH_CAPACITY
    requires k < |pairs| && PairEq(pairs[k], KeyPair(obj, bid, tid, l))
    ensures var p2 := pairs[k := pairs[k].(reused := true)];
            PairsOk(p2, batches, base, manifolds) && Covered(p2, obj, bid, tid) &&
            Grown(pairs, p2, next, next, manifolds, manifolds, batches, base, l) &&
            forall q :: 0 <= q < |p2| && NewlyMarked(pairs, p2, q) ==>
              p2[q].obj == obj && PairBatch(p2[q]) == bid && PairSlot(p2[q]) == tid
  {
    var p2 := pairs[k := pairs[k].(reused := true)];
    PackRoundTrip(bid, tid);
    assert PairOkIn(pairs[k], batches, base, manifolds);
    assert PairOkIn(p2[k], batches, base, manifolds);
    assert Covered(p2, obj, bid, tid);
  }

  /** Appending a new pair with fresh manifold `m` when no pair equals the
      key keeps every table consistent and covers the tree. */
  lemma TouchNew(bodies: map<nat, Body>, order: seq<nat>, slots: seq<Option<nat>>, pairs: seq<TreeCollisionPair>,
                 batches: seq<TreeBatch>, base: nat, manifolds: map<nat, Manifold>, m: nat, l: real,
                 obj: nat, bid: nat, tid: nat)
    requires IdsOk(bodies, order, manifolds, m) && SlotsOk(bodies, slots, manifolds)
    requires PairsOk(pairs, batches, base, manifolds)
    requires bid < |batches| && bid < MAX_BATCH_ID && WellFormedBatch(batches[bid])
    requires tid < batches[bid].treeCount && batches[bid].lastFrameUsed != UMAX32
    requires forall i :: 0 <= i < |pairs| ==> !PairEq(pairs[i], KeyPair(obj, bid, tid, l))
    ensures var np := NewPair(obj, bid, tid, batches[bid].trees[tid], m, l);
            var m2 := manifolds[m := Manifold(obj, TreeProxyAt(base, bid, tid), [])];
            var p2 := pairs + [np];
            IdsOk(bodies, order, m2, m + 1) && SlotsOk(bodies, slots, m2) && PairsOk(p2, batches, base, m2) &&
            Covered(p2, obj, bid, tid) && Grown(pairs, p2, m, m + 1, manifolds, m2, batches, base, l) &&
            forall q :: 0 <= q < |p2| && NewlyMarked(pairs, p2, q) ==>
              p2[q].obj == obj && PairBatch(p2[q]) == bid && PairSlot(p2[q]) == tid
  {
    PackRoundTrip(bid, tid);
    var np := NewPair(obj, bid, tid, batches[bid].trees[tid], m, l);
    var m2 := manifolds[m := Manifold(obj, TreeProxyAt(base, bid, tid), [])];
    var p2 := pairs + [np];
    SlotsOkFrame(bodies, slots, manifolds, m2);
    PairsOkFrame(pairs, batches, base, manifolds, m2);
    forall k | 0 <= k < |pairs| ensures !PairEq(pairs[k], np) && pairs[k].manifold != np.manifold {
      assert PairOkIn(pairs[k], batches, base, manifolds);
    }
    assert PairOkIn(np, batches, base, m2);
    assert p2[|p2| - 1] == np;
    assert forall k :: 0 <= k < |pairs| ==> p2[k] == pairs[k];
    assert Covered(p2, obj, bid, tid);
    assert FreshPairs(pairs, p2, m, batches, base, m2, l);
  }

  /** What the terrain step leaves for body `x` whose leaves produced the
      points `pts`: no terrain manifold exactly when there are no points,
      and otherwise the one its handle names holds exactly those points. */
  predicate TerrainResult(x: nat, bodies: map<nat, Body>, slots: seq<Option<nat>>, manifolds: map<nat, Manifold>,
                          pts: seq<ContactPoint>)
    requires x in bodies
  {
    var h := bodies[x].handle;
    (h == UMAX32 <==> pts == []) &&
    (h != UMAX32 ==> h < |slots| && slots[h].Some? && slots[h].value in manifolds &&
                     manifolds[slots[h].value].points == pts)
  }

  /** Every occupied slot whose manifold belongs to a body other than `id`
      kept its manifold, unchanged. */
  predicate OthersKept(s1: seq<Option<nat>>, m1: map<nat, Manifold>, s2: seq<Option<nat>>, m2: map<nat, Manifold>, id: nat) {
    forall h :: 0 <= h < |s1| && s1[h].Some? && s1[h].value in m1 && m1[s1[h].value].obj != id ==>
      h < |s2| && s2[h] == s1[h] && s1[h].value in m2 && m2[s1[h].value] == m1[s1[h].value]
  }

  lemma OthersKeptTrans(s1: seq<Option<nat>>, m1: map<nat, Manifold>, s2: seq<Option<nat>>, m2: map<nat, Manifold>,
                        s3: seq<Option<nat>>, m3: map<nat, Manifold>, id: nat)
    requires OthersKept(s1, m1, s2, m2, id) && OthersKept(s2, m2, s3, m3, id)
    ensures OthersKept(s1, m1, s3, m3, id)
  {
  }

  /** The step of body `id` does not disturb another body's result. */
  lemma TerrainResultKept(x: nat, b1: map<nat, Body>, s1: seq<Option<nat>>, m1: map<nat, Manifold>,
                          b2: map<nat, Body>, s2: seq<Option<nat>>, m2: map<nat, Manifold>, id: nat, pts: seq<ContactPoint>)
    requires SlotsOk(b1, s1, m1) && x in b1 && x in b2 && x != id && b2[x].handle == b1[x].handle
    requires OthersKept(s1, m1, s2, m2, id)
    requires TerrainResult(x, b1, s1, m1, pts)
    ensures TerrainResult(x, b2, s2, m2, pts)
  {
    assert HandleOkIn(x, b1, s1, m1);
  }

  /** The frame counter as written: a plain 32-bit increment. */
  function NextFrameAsWritten(f: nat): (g: nat)
    ensures g < TWO32
  {
    (f + 1) % TWO32
  }

  /** The frame counter of the model: the increment, except that the none
      value is skipped, so that a batch stamped with the frame never reads
      as unbuilt. */
  function NextFrame(f: nat): (g: nat)
    requires f < UMAX32
    ensures g < UMAX32
  {
    if f + 1 == UMAX32 then 0 else f + 1
  }

  /** The two counters agree on every frame but the one before the none
      value, where the counter as written produces it. */
  lemma NextFrameAgrees(f: nat)
    requires f < UMAX32
    ensures f + 1 < UMAX32 ==> NextFrame(f) == NextFrameAsWritten(f)
    ensures f + 1 == UMAX32 ==> NextFrameAsWritten(f) == UMAX32 && NextFrame(f) == 0
  {
  }

  /** With the counter as written, a batch built and stamped in the frame
      after `UMAX32 - 1` reads as never built, so the repair pass skips it
      and its proxy keeps the old storage address. */
  lemma StampedWithNoneSkipsRepair(t: Tree, proxy: TreeProxy, up: Vec3 -> Vec3)
    ensures var b := TreeBatch(0, 0, 0, UMAX32, 1, seq(16, _ => t), seq(16, _ => proxy));
            var s := Stamped(b, NextFrameAsWritten(UMAX32 - 1), 0, up);
            s.info[0].shapeLink == 0 && s.lastFrameUsed == UMAX32 &&
            Repaired(s, 1).info[0].shapeLink == 0 && !LinksAt(Repaired(s, 1), 1)
  {
    var b := TreeBatch(0, 0, 0, UMAX32, 1, seq(16, _ => t), seq(16, _ => proxy));
    var s := Stamped(b, NextFrameAsWritten(UMAX32 - 1), 0, up);
    assert NextFrameAsWritten(UMAX32 - 1) == UMAX32;
    assert s.info[0] == BuiltProxy(t, up(t.pos), 0);
  }

  /** With the model's counter the same batch is stamped as built and is
      relinked by the repair pass. */
  lemma StampedWithNextFrameIsRepaired(b: TreeBatch, f: nat, base: nat, base2: nat, up: Vec3 -> Vec3)
    requires WellFormedBatch(b) && f < UMAX32
    ensures var s := Stamped(b, NextFrame(f), base, up);
            s.lastFrameUsed != UMAX32 && LinksAt(Repaired(s, base2), base2)
  {
  }

  /** Planet manifolds other than body `id`'s own `m` that survive keep
      every other body's slot result. */
  lemma OthersKeptPlanet(bodies: map<nat, Body>, slots: seq<Option<nat>>, m1: map<nat, Manifold>,
                         m2: map<nat, Manifold>, m: nat, id: nat)
    requires SlotsOk(bodies, slots, m1) && PlanetKept(m1, m2, m) && (m in m1 ==> m1[m].obj == id)
    ensures OthersKept(slots, m1, slots, m2, id)
  {
    forall h | 0 <= h < |slots| && slots[h].Some? && slots[h].value in m1 && m1[slots[h].value].obj != id
      ensures slots[h].value in m2 && m2[slots[h].value] == m1[slots[h].value]
    {
      assert m1[slots[h].value].partner == Planet;
    }
  }

  /** `b2` is `b1` with possibly more batches appended, every batch keeping
      its trees and its count. */
  predicate TreesExtend(b1: seq<TreeBatch>, b2: seq<TreeBatch>) {
    |b1| <= |b2| &&
    forall b :: 0 <= b < |b1| ==> b2[b].trees == b1[b].trees && b2[b].treeCount == b1[b].treeCount
  }

  /** Stamping the referenced batches keeps every batch's trees. */
  lemma StampedTreesExtend(b1: seq<TreeBatch>, b2: seq<TreeBatch>, refs: seq<nat>, frame: nat, base: nat,
                           up: Vec3 -> Vec3)
    requires BatchesShaped(b1) && |b2| == |b1|
    requires forall b :: 0 <= b < |b2| ==> b2[b] == if b in refs then Stamped(b1[b], frame, base, up) else b1[b]
    ensures TreesExtend(b1, b2)
  {
    forall b | 0 <= b < |b1| ensures b2[b].trees == b1[b].trees && b2[b].treeCount == b1[b].treeCount {
      if b in refs {
        assert b2[b] == Stamped(b1[b], frame, base, up);
      }
    }
  }

  /** A leaf whose referenced batches were all prepared against the body in
      cache `b1` has its pairs readied in any later cache `b2` that keeps
      their trees. */
  lemma PreparedLeafReadied(pairs: seq<TreeCollisionPair>, b1: seq<TreeBatch>, b2: seq<TreeBatch>, x: nat,
                            e: CompoundFlatten.Entry, provider: Provider, frame: nat)
    requires TreesExtend(b1, b2) && BatchesShaped(b1)
    requires var a := provider(x, e, frame);
             (forall r :: 0 <= r < |a.refs| ==> a.refs[r] < |b1|) &&
             (forall r, j :: 0 <= r < |a.refs| && 0 <= j < b1[a.refs[r]].treeCount &&
                             !IsBroken(b1[a.refs[r]].trees[j]) && a.treeHit(a.refs[r], j) ==>
                Covered(pairs, x, a.refs[r], j))
    ensures LeafReadied(pairs, b2, x, e, provider, frame)
  {
    var a := provider(x, e, frame);
    forall r, j | 0 <= r < |a.refs| && 0 <= j < b2[a.refs[r]].treeCount && j < |b2[a.refs[r]].trees| &&
                  !IsBroken(b2[a.refs[r]].trees[j]) && a.treeHit(a.refs[r], j)
      ensures Covered(pairs, x, a.refs[r], j)
    {
      assert b2[a.refs[r]].trees == b1[a.refs[r]].trees;
    }
  }

  lemma TreesExtendTrans(b1: seq<TreeBatch>, b2: seq<TreeBatch>, b3: seq<TreeBatch>)
    requires TreesExtend(b1, b2) && TreesExtend(b2, b3)
    ensures TreesExtend(b1, b3)
  {
  }

  /** The pairs leaf `e` of body `x` asks for: when the leaf hits, the
      batches its query referenced are in the cache, and every tree of them
      below the count that is not broken and passes the hit test is covered
      by a reused pair of `x`. */
  predicate LeafReadied(pairs: seq<TreeCollisionPair>, batches: seq<TreeBatch>, x: nat,
                        e: CompoundFlatten.Entry, provider: Provider, frame: nat) {
    Hits(x, e, provider, frame) ==>
      var a := provider(x, e, frame);
      (forall r :: 0 <= r < |a.refs| ==> a.refs[r] < |batches|) &&
      (forall r, j :: 0 <= r < |a.refs| && 0 <= j < batches[a.refs[r]].treeCount &&
                      j < |batches[a.refs[r]].trees| && !IsBroken(batches[a.refs[r]].trees[j]) &&
                      a.treeHit(a.refs[r], j) ==>
         Covered(pairs, x, a.refs[r], j))
  }

  lemma LeafReadiedKept(p1: seq<TreeCollisionPair>, b1: seq<TreeBatch>, p2: seq<TreeCollisionPair>,
                        b2: seq<TreeBatch>, x: nat, e: CompoundFlatten.Entry, provider: Provider, frame: nat)
    requires LeafReadied(p1, b1, x, e, provider, frame) && PairsExtend(p1, p2) && TreesExtend(b1, b2)
    ensures LeafReadied(p2, b2, x, e, provider, frame)
  {
    if Hits(x, e, provider, frame) {
      var a := provider(x, e, frame);
      forall r, j | 0 <= r < |a.refs| && 0 <= j < b2[a.refs[r]].treeCount && j < |b2[a.refs[r]].trees| &&
                    !IsBroken(b2[a.refs[r]].trees[j]) && a.treeHit(a.refs[r], j)
        ensures Covered(p2, x, a.refs[r], j)
      {
        CoveredExtend(p1, p2, x, a.refs[r], j);
      }
    }
  }

  /** Every leaf of body `x` placed as `b` has its pairs readied. */
  predicate BodyReadied(pairs: seq<TreeCollisionPair>, batches: seq<TreeBatch>, x: nat, b: Body,
                        provider: Provider, frame: nat) {
    var items := CompoundFlatten.Leaves(CompoundFlatten.Entry(b.shape, b.trans));
    forall k :: 0 <= k < |items| ==> LeafReadied(pairs, batches, x, items[k], provider, frame)
  }

  lemma BodyReadiedKept(p1: seq<TreeCollisionPair>, b1: seq<TreeBatch>, p2: seq<TreeCollisionPair>,
                        b2: seq<TreeBatch>, x: nat, b: Body, provider: Provider, frame: nat)
    requires BodyReadied(p1, b1, x, b, provider, frame) && PairsExtend(p1, p2) && TreesExtend(b1, b2)
    ensures BodyReadied(p2, b2, x, b, provider, frame)
  {
    var items := CompoundFlatten.Leaves(CompoundFlatten.Entry(b.shape, b.trans));
    forall k | 0 <= k < |items| ensures LeafReadied(p2, b2, x, items[k], provider, frame) {
      LeafReadiedKept(p1, b1, p2, b2, x, items[k], provider, frame);
    }
  }

  /** The processable bodies among `order[..i]` have their pairs readied;
      `b0` holds their shapes and placements. */
  predicate ReadiedUpTo(order: seq<nat>, i: nat, b0: map<nat, Body>, pairs: seq<TreeCollisionPair>,
                        batches: seq<TreeBatch>, provider: Provider, frame: nat) {
    forall q :: 0 <= q < i && q < |order| && order[q] in b0 && Processable(b0[order[q]]) ==>
      BodyReadied(pairs, batches, order[q], b0[order[q]], provider, frame)
  }

  lemma ReadiedStep(order: seq<nat>, i: nat, b0: map<nat, Body>, p1: seq<TreeCollisionPair>, b1: seq<TreeBatch>,
                    p2: seq<TreeCollisionPair>, b2: seq<TreeBatch>, provider: Provider, frame: nat)
    requires i < |order| && ReadiedUpTo(order, i, b0, p1, b1, provider, frame)
    requires PairsExtend(p1, p2) && TreesExtend(b1, b2)
    requires order[i] in b0 && Processable(b0[order[i]]) ==>
               BodyReadied(p2, b2, order[i], b0[order[i]], provider, frame)
    ensures ReadiedUpTo(order, i + 1, b0, p2, b2, provider, frame)
  {
    forall q | 0 <= q < i && order[q] in b0 && Processable(b0[order[q]])
      ensures BodyReadied(p2, b2, order[q], b0[order[q]], provider, frame)
    {
      BodyReadiedKept(p1, b1, p2, b2, order[q], b0[order[q]], provider, frame);
    }
  }
  /** One pass of the terrain loop, on the `i`th body of the order, keeps
      the loop's invariants: the state before it is `b1`, `s1`, `m1`, `p1`,
      `t1` and the state after it `b2`, `s2`, `m2`, `p2`, `t2`. */
  lemma EntryStepped(order: seq<nat>, i: nat, b0: map<nat, Body>, s0: seq<Option<nat>>, m0: map<nat, Manifold>,
                     b1: map<nat, Body>, s1: seq<Option<nat>>, m1: map<nat, Manifold>,
                     p1: seq<TreeCollisionPair>, t1: seq<TreeBatch>,
                     b2: map<nat, Body>, s2: seq<Option<nat>>, m2: map<nat, Manifold>,
                     p2: seq<TreeCollisionPair>, t2: seq<TreeBatch>, provider: Provider, frame: nat)
    requires Distinct(order) && i < |order| && order[i] in b1 && b1.Keys == b0.Keys && SlotsOk(b1, s1, m1)
    requires forall x :: x in b1 ==> b1[x] == b0[x].(handle := b1[x].handle)
    requires PendingFrom(order, i, b0, b1) && DoneUpTo(order, i, b0, b1, s1, m1, provider, frame)
    requires SkippedKept(b0, s0, m0, b1, s1, m1) && ReadiedUpTo(order, i, b0, p1, t1, provider, frame)
    requires order[i] in b2 && b2 == b1[order[i] := b1[order[i]].(handle := b2[order[i]].handle)]
    requires !Processable(b1[order[i]]) ==> b2 == b1 && s2 == s1 && m2 == m1
    requires Processable(b1[order[i]]) ==>
               TerrainResult(order[i], b2, s2, m2, BodyPoints(order[i], b1[order[i]], provider, frame)) &&
               BodyReadied(p2, t2, order[i], b1[order[i]], provider, frame)
    requires PairsExtend(p1, p2) && TreesExtend(t1, t2) && OthersKept(s1, m1, s2, m2, order[i])
    ensures b2.Keys == b0.Keys && forall x :: x in b2 ==> b2[x] == b0[x].(handle := b2[x].handle)
    ensures PendingFrom(order, i + 1, b0, b2) && DoneUpTo(order, i + 1, b0, b2, s2, m2, provider, frame)
    ensures SkippedKept(b0, s0, m0, b2, s2, m2) && ReadiedUpTo(order, i + 1, b0, p2, t2, provider, frame)
  {
    var id := order[i];
    DoneStep(order, i, b0, b1, s1, m1, b2, s2, m2, provider, frame);
    if !Processable(b0[id]) {
      assert KeptBody(id, b0, s0, m0, b1, s1, m1);
    }
    SkippedKeptStep(id, b0, s0, m0, b1, s1, m1, b2, s2, m2);
    ReadiedStep(order, i, b0, p1, t1, p2, t2, provider, frame);
  }


  lemma ReadiedAll(order: seq<nat>, b0: map<nat, Body>, pairs: seq<TreeCollisionPair>, batches: seq<TreeBatch>,
                   provider: Provider, frame: nat)
    requires ReadiedUpTo(order, |order|, b0, pairs, batches, provider, frame)
    requires forall x :: x in b0 ==> x in order
    ensures forall x :: x in b0 && Processable(b0[x]) ==> BodyReadied(pairs, batches, x, b0[x], provider, frame)
  {
    forall x | x in b0 && Processable(b0[x]) ensures BodyReadied(pairs, batches, x, b0[x], provider, frame) {
      var q :| 0 <= q < |order| && order[q] == x;
    }
  }

  /** Body `x` is as in `b0`, and the terrain manifold its handle named
      there, if any, still sits in the same slot, unchanged. */
  predicate KeptBody(x: nat, b0: map<nat, Body>, s0: seq<Option<nat>>, m0: map<nat, Manifold>,
                     bodies: map<nat, Body>, slots: seq<Option<nat>>, manifolds: map<nat, Manifold>) {
    x in b0 && x in bodies && bodies[x] == b0[x] &&
    (b0[x].handle != UMAX32 ==>
       var h := b0[x].handle;
       h < |s0| && s0[h].Some? && s0[h].value in m0 && m0[s0[h].value].obj == x &&
       m0[s0[h].value].partner == Planet &&
       h < |slots| && slots[h] == s0[h] && s0[h].value in manifolds && manifolds[s0[h].value] == m0[s0[h].value])
  }

  /** Every body the terrain step skips is kept. */
  predicate SkippedKept(b0: map<nat, Body>, s0: seq<Option<nat>>, m0: map<nat, Manifold>,
                        bodies: map<nat, Body>, slots: seq<Option<nat>>, manifolds: map<nat, Manifold>) {
    forall x :: x in b0 && !Processable(b0[x]) ==> KeptBody(x, b0, s0, m0, bodies, slots, manifolds)
  }

  lemma SkippedKeptStart(bodies: map<nat, Body>, slots: seq<Option<nat>>, manifolds: map<nat, Manifold>)
    requires SlotsOk(bodies, slots, manifolds)
    ensures SkippedKept(bodies, slots, manifolds, bodies, slots, manifolds)
  {
    forall x | x in bodies && !Processable(bodies[x])
      ensures KeptBody(x, bodies, slots, manifolds, bodies, slots, manifolds)
    {
      assert HandleOkIn(x, bodies, slots, manifolds);
    }
  }

  /** The step of body `id` keeps every skipped body other than `id`. */
  lemma SkippedKeptStep(id: nat, b0: map<nat, Body>, s0: seq<Option<nat>>, m0: map<nat, Manifold>,
                        b1: map<nat, Body>, s1: seq<Option<nat>>, m1: map<nat, Manifold>,
                        b2: map<nat, Body>, s2: seq<Option<nat>>, m2: map<nat, Manifold>)
    requires SkippedKept(b0, s0, m0, b1, s1, m1) && id in b1
    requires id in b2 && b2 == b1[id := b1[id].(handle := b2[id].handle)] && OthersKept(s1, m1, s2, m2, id)
    requires id in b0 && !Processable(b0[id]) ==> KeptBody(id, b0, s0, m0, b2, s2, m2)
    ensures SkippedKept(b0, s0, m0, b2, s2, m2)
  {
    forall x | x in b0 && !Processable(b0[x]) && x != id ensures KeptBody(x, b0, s0, m0, b2, s2, m2) {
      assert KeptBody(x, b0, s0, m0, b1, s1, m1);
    }
  }

  /** A change that keeps the planet manifolds, the slots and the bodies
      keeps every skipped body. */
  lemma SkippedKeptPlanet(b0: map<nat, Body>, s0: seq<Option<nat>>, m0: map<nat, Manifold>,
                          bodies: map<nat, Body>, slots: seq<Option<nat>>, m1: map<nat, Manifold>,
                          m2: map<nat, Manifold>)
    requires SkippedKept(b0, s0, m0, bodies, slots, m1) && PlanetUntouched(m1, m2)
    ensures SkippedKept(b0, s0, m0, bodies, slots, m2)
  {
    forall x | x in b0 && !Processable(b0[x]) ensures KeptBody(x, b0, s0, m0, bodies, slots, m2) {
      assert KeptBody(x, b0, s0, m0, bodies, slots, m1);
    }
  }

  /** The bodies `order[..i]` have their terrain result for frame `frame`;
      `b0` holds their shapes and placements. */
  predicate DoneUpTo(order: seq<nat>, i: nat, b0: map<nat, Body>, bodies: map<nat, Body>, slots: seq<Option<nat>>,
                     manifolds: map<nat, Manifold>, provider: Provider, frame: nat) {
    forall q :: 0 <= q < i && q < |order| && order[q] in bodies && order[q] in b0 && Processable(bodies[order[q]]) ==>
      TerrainResult(order[q], bodies, slots, manifolds, BodyPoints(order[q], b0[order[q]], provider, frame))
  }

  /** The bodies from `order[i]` on are as in `b0`. */
  predicate PendingFrom(order: seq<nat>, i: nat, b0: map<nat, Body>, bodies: map<nat, Body>) {
    forall q :: i <= q < |order| && order[q] in b0 ==> order[q] in bodies && bodies[order[q]] == b0[order[q]]
  }

  lemma DoneStep(order: seq<nat>, i: nat, b0: map<nat, Body>, b1: map<nat, Body>, s1: seq<Option<nat>>,
                 m1: map<nat, Manifold>, b2: map<nat, Body>, s2: seq<Option<nat>>, m2: map<nat, Manifold>,
                 provider: Provider, frame: nat)
    requires Distinct(order) && i < |order| && order[i] in b0 && order[i] in b1 && order[i] in b2
    requires DoneUpTo(order, i, b0, b1, s1, m1, provider, frame) && PendingFrom(order, i, b0, b1)
    requires SlotsOk(b1, s1, m1) && OthersKept(s1, m1, s2, m2, order[i])
    requires b2 == b1[order[i] := b1[order[i]].(handle := b2[order[i]].handle)]
    requires Processable(b1[order[i]]) ==>
               TerrainResult(order[i], b2, s2, m2, BodyPoints(order[i], b1[order[i]], provider, frame))
    ensures DoneUpTo(order, i + 1, b0, b2, s2, m2, provider, frame) && PendingFrom(order, i + 1, b0, b2)
  {
    var id := order[i];
    forall q | 0 <= q < i + 1 && q < |order| && order[q] in b2 && order[q] in b0 && Processable(b2[order[q]])
      ensures TerrainResult(order[q], b2, s2, m2, BodyPoints(order[q], b0[order[q]], provider, frame))
    {
      if q < i {
        assert order[q] != id;
        TerrainResultKept(order[q], b1, s1, m1, b2, s2, m2, id, BodyPoints(order[q], b0[order[q]], provider, frame));
      }
    }
    forall q | i + 1 <= q < |order| && order[q] in b0 ensures order[q] in b2 && b2[order[q]] == b0[order[q]] {
      assert order[q] != id;
    }
  }

  lemma DoneAll(order: seq<nat>, b0: map<nat, Body>, bodies: map<nat, Body>, slots: seq<Option<nat>>,
                manifolds: map<nat, Manifold>, provider: Provider, frame: nat)
    requires DoneUpTo(order, |order|, b0, bodies, slots, manifolds, provider, frame)
    requires forall x :: x in bodies ==> x in order && x in b0
    ensures forall x :: x in bodies && Processable(bodies[x]) ==>
              TerrainResult(x, bodies, slots, manifolds, BodyPoints(x, b0[x], provider, frame))
  {
    forall x | x in bodies && Processable(bodies[x])
      ensures TerrainResult(x, bodies, slots, manifolds, BodyPoints(x, b0[x], provider, frame))
    {
      var q :| 0 <= q < |order| && order[q] == x;
    }
  }

  /** The collision proxy of a pair's slot, in cache `batches`. */
  function PairProxy(p: TreeCollisionPair, batches: seq<TreeBatch>): TreeProxy
    requires PairBatch(p) < |batches| && PairSlot(p) < |batches[PairBatch(p)].info|
  {
    batches[PairBatch(p)].info[PairSlot(p)]
  }

  /** `get_tree` and `get_tree_collision_info` of a pair made for slot
      `tid` of batch `bid` find that slot's tree and proxy again. */
  lemma PairLookupRoundTrip(obj: nat, bid: nat, tid: nat, tree: Tree, m: nat, l: real, batches: seq<TreeBatch>)
    requires bid < |batches| && bid < MAX_BATCH_ID && tid < TREE_BATCH_CAPACITY && WellFormedBatch(batches[bid])
    ensures var p := NewPair(obj, bid, tid, tree, m, l);
            PairBatch(p) == bid && PairSlot(p) == tid &&
            PairTree(p, batches) == batches[bid].trees[tid] && PairProxy(p, batches) == batches[bid].info[tid]
  {
    PackRoundTrip(bid, tid);
  }

  /** The narrow phase between a pair's body and its tree proxy: from the
      manifold's points before to its points after. */
  type NarrowPhase = (TreeCollisionPair, TreeProxy, seq<ContactPoint>) -> seq<ContactPoint>

  /** A pair the sweep can process: its batch exists, is well formed and
      has physical trees, and its manifold is live. */
  predicate SweepReady(p: TreeCollisionPair, batches: seq<TreeBatch>, manifolds: map<nat, Manifold>) {
    PairBatch(p) < |batches| && WellFormedBatch(batches[PairBatch(p)]) && PhysicalBatch(batches[PairBatch(p)]) &&
    p.manifold in manifolds
  }

  predicate AllReady(ps: seq<TreeCollisionPair>, batches: seq<TreeBatch>, manifolds: map<nat, Manifold>) {
    forall q :: 0 <= q < |ps| ==> SweepReady(ps[q], batches, manifolds)
  }

  predicate Live(p: TreeCollisionPair) { p.active && p.reused }

  predicate DistinctManifolds(ps: seq<TreeCollisionPair>) {
    forall a, b :: 0 <= a < b < |ps| ==> ps[a].manifold != ps[b].manifold
  }

  /** Where the sweep has got to: the pairs kept so far, the manifold
      table, the tree-batch cache and every body's impact state. */
  datatype SweepState = SweepState(kept: seq<TreeCollisionPair>, manifolds: map<nat, Manifold>,
                                   batches: seq<TreeBatch>, impacts: nat -> Impact)

  /** The impact states with body `obj`'s replaced by `imp`. */
  function SetImpact(impacts: nat -> Impact, obj: nat, imp: Impact): nat -> Impact {
    (x: nat) => if x == obj then imp else impacts(x)
  }

  /** The cache with tree `t` of batch `b` replaced by `tree`. */
  function SetTree(batches: seq<TreeBatch>, b: nat, t: nat, tree: Tree): seq<TreeBatch>
    requires b < |batches| && t < |batches[b].trees|
  {
    batches[b := batches[b].(trees := batches[b].trees[t := tree])]
  }

  /** `bs` is the cache `b0` with at most the trees' spring bytes changed. */
  predicate SpringOnly(b0: seq<TreeBatch>, bs: seq<TreeBatch>) {
    |bs| == |b0| &&
    forall b :: 0 <= b < |bs| ==>
      bs[b] == b0[b].(trees := bs[b].trees) && |bs[b].trees| == |b0[b].trees| &&
      forall t :: 0 <= t < |bs[b].trees| ==>
        bs[b].trees[t] == b0[b].trees[t].(springForceUv := bs[b].trees[t].springForceUv)
  }

  /** Writing a tree's spring bytes keeps a cache within `SpringOnly` of
      where it started. */
  lemma SpringOnlySetTree(b0: seq<TreeBatch>, bs: seq<TreeBatch>, b: nat, t: nat, tree: Tree)
    requires SpringOnly(b0, bs) && b < |bs| && t < |bs[b].trees|
    requires tree == bs[b].trees[t].(springForceUv := tree.springForceUv)
    ensures SpringOnly(b0, SetTree(bs, b, t, tree))
  {
    var r := SetTree(bs, b, t, tree);
    forall c | 0 <= c < |r|
      ensures r[c] == b0[c].(trees := r[c].trees) && |r[c].trees| == |b0[c].trees|
      ensures forall u :: 0 <= u < |r[c].trees| ==>
                r[c].trees[u] == b0[c].trees[u].(springForceUv := r[c].trees[u].springForceUv)
    {
      if c == b {
        forall u | 0 <= u < |r[c].trees|
          ensures r[c].trees[u] == b0[c].trees[u].(springForceUv := r[c].trees[u].springForceUv)
        {
          if u != t {
            assert r[c].trees[u] == bs[c].trees[u];
          }
        }
      }
    }
  }

  /** A pair ready in the cache before the sweep is ready in any cache that
      differs from it only in spring bytes. */
  lemma SpringOnlyReady(p: TreeCollisionPair, b0: seq<TreeBatch>, bs: seq<TreeBatch>, m: map<nat, Manifold>)
    requires SweepReady(p, b0, m) && SpringOnly(b0, bs)
    ensures SweepReady(p, bs, m)
    ensures bs[PairBatch(p)].info == b0[PairBatch(p)].info
  {
    var b := PairBatch(p);
    assert bs[b] == b0[b].(trees := bs[b].trees);
    forall i | 0 <= i < |bs[b].trees| ensures IsPhysical(bs[b].trees[i]) {
      assert IsPhysical(b0[b].trees[i]);
    }
  }

  /** What processing a live pair yields in state `s`: the narrow phase
      refreshes its manifold's points against the tree's proxy, then the
      flex step runs with half the capsule height as the proxy's half
      height, on the tree and the body's impact state as the pairs before
      have left them. */
  function SweepOutcome(p: TreeCollisionPair, s: SweepState, narrow: NarrowPhase, deflect: Deflector): PairOutcome
    requires SweepReady(p, s.batches, s.manifolds)
  {
    PairStep(p.tcCtx, PairTree(p, s.batches), PairProxy(p, s.batches).capsuleHeight / 2.0,
             narrow(p, PairProxy(p, s.batches), s.manifolds[p.manifold].points), s.impacts(p.obj), deflect)
  }

  /** One pair of the sweep: an inactive pair's tree has its spring state
      cleared and the pair is dropped; an unreused pair's manifold is
      released and the pair is dropped; a live pair is kept, not reused for
      the next frame and with its step's context, its manifold holds the
      step's points, and its tree and its body take what the step left. A
      pair whose batch or manifold is missing is passed over; `ReadyAt`
      shows that from a consistent world there is none. */
  function SweepStep(s: SweepState, p: TreeCollisionPair, narrow: NarrowPhase, deflect: Deflector): SweepState {
    if !SweepReady(p, s.batches, s.manifolds) then s
    else
      var b := PairBatch(p);
      var t := PairSlot(p);
      if !p.active then
        s.(batches := SetTree(s.batches, b, t, ClearSpring(s.batches[b].trees[t])))
      else if !p.reused then
        s.(manifolds := s.manifolds - {p.manifold})
      else
        var o := SweepOutcome(p, s, narrow, deflect);
        SweepState(s.kept + [p.(reused := false, tcCtx := o.ctx)],
                   s.manifolds[p.manifold := s.manifolds[p.manifold].(points := o.points)],
                   SetTree(s.batches, b, t, o.tree),
                   SetImpact(s.impacts, p.obj, o.impact))
  }

  /** The state after the first `k` pairs of `ps`, swept in order from the
      cache `b0`, the manifold table `m0` and the bodies' impact states
      `v0`. */
  function Sweep(ps: seq<TreeCollisionPair>, k: nat, b0: seq<TreeBatch>, m0: map<nat, Manifold>, v0: nat -> Impact,
                 narrow: NarrowPhase, deflect: Deflector): SweepState
    requires k <= |ps|
  {
    if k == 0 then SweepState([], m0, b0, v0)
    else SweepStep(Sweep(ps, k - 1, b0, m0, v0, narrow, deflect), ps[k - 1], narrow, deflect)
  }

  /** One sweep step keeps the cache within spring changes of `b0`, adds
      no manifold, and touches no manifold but the pair's own. */
  lemma StepFacts(s: SweepState, p: TreeCollisionPair, b0: seq<TreeBatch>, narrow: NarrowPhase, deflect: Deflector)
    requires SpringOnly(b0, s.batches)
    ensures var r := SweepStep(s, p, narrow, deflect);
            SpringOnly(b0, r.batches) && r.manifolds.Keys <= s.manifolds.Keys &&
            (forall x :: x in s.manifolds && x != p.manifold ==> x in r.manifolds && r.manifolds[x] == s.manifolds[x])
  {
    if SweepReady(p, s.batches, s.manifolds) {
      var b := PairBatch(p);
      var t := PairSlot(p);
      assert t < |s.batches[b].trees|;
      if !p.active {
        SpringOnlySetTree(b0, s.batches, b, t, ClearSpring(s.batches[b].trees[t]));
      } else if p.reused {
        var o := SweepOutcome(p, s, narrow, deflect);
        StepWritesOnlyVelocityAndSpring(p.tcCtx, PairTree(p, s.batches), PairProxy(p, s.batches).capsuleHeight / 2.0,
                                        narrow(p, PairProxy(p, s.batches), s.manifolds[p.manifold].points),
                                        s.impacts(p.obj), deflect);
        SpringOnlySetTree(b0, s.batches, b, t, o.tree);
      }
    }
  }

  /** The sweep changes the cache only in spring bytes and adds no
      manifold. */
  lemma {:induction false} SweptShape(ps: seq<TreeCollisionPair>, k: nat, b0: seq<TreeBatch>, m0: map<nat, Manifold>,
                                      v0: nat -> Impact, narrow: NarrowPhase, deflect: Deflector)
    requires k <= |ps|
    ensures var s := Sweep(ps, k, b0, m0, v0, narrow, deflect);
            SpringOnly(b0, s.batches) && s.manifolds.Keys <= m0.Keys
  {
    if k > 0 {
      SweptShape(ps, k - 1, b0, m0, v0, narrow, deflect);
      StepFacts(Sweep(ps, k - 1, b0, m0, v0, narrow, deflect), ps[k - 1], b0, narrow, deflect);
    }
  }

  /** A manifold none of the first `k` pairs owns passes them untouched. */
  lemma {:induction false} SweptManifoldUntouched(ps: seq<TreeCollisionPair>, k: nat, b0: seq<TreeBatch>,
                                                  m0: map<nat, Manifold>, v0: nat -> Impact,
                                                  narrow: NarrowPhase, deflect: Deflector, x: nat)
    requires k <= |ps| && x in m0
    requires forall q :: 0 <= q < k ==> ps[q].manifold != x
    ensures var ms := Sweep(ps, k, b0, m0, v0, narrow, deflect).manifolds;
            x in ms && ms[x] == m0[x]
  {
    if k > 0 {
      SweptManifoldUntouched(ps, k - 1, b0, m0, v0, narrow, deflect, x);
      SweptShape(ps, k - 1, b0, m0, v0, narrow, deflect);
      StepFacts(Sweep(ps, k - 1, b0, m0, v0, narrow, deflect), ps[k - 1], b0, narrow, deflect);
    }
  }

  /** Every pair of a sweepable table is ready at its turn, and its
      manifold is still as it was before the sweep. */
  lemma ReadyAt(ps: seq<TreeCollisionPair>, k: nat, b0: seq<TreeBatch>, m0: map<nat, Manifold>,
                v0: nat -> Impact, narrow: NarrowPhase, deflect: Deflector)
    requires AllReady(ps, b0, m0) && DistinctManifolds(ps) && k < |ps|
    ensures var s := Sweep(ps, k, b0, m0, v0, narrow, deflect);
            SweepReady(ps[k], s.batches, s.manifolds) && s.manifolds[ps[k].manifold] == m0[ps[k].manifold]
  {
    SweptShape(ps, k, b0, m0, v0, narrow, deflect);
    SweptManifoldUntouched(ps, k, b0, m0, v0, narrow, deflect, ps[k].manifold);
    SpringOnlyReady(ps[k], b0, Sweep(ps, k, b0, m0, v0, narrow, deflect).batches, m0);
  }

  /** The outcome of pair `q`'s step, in the state the sweep reached
      before it. */
  function OutcomeAt(ps: seq<TreeCollisionPair>, q: nat, b0: seq<TreeBatch>, m0: map<nat, Manifold>,
                     v0: nat -> Impact, narrow: NarrowPhase, deflect: Deflector): PairOutcome
    requires AllReady(ps, b0, m0) && DistinctManifolds(ps) && q < |ps|
  {
    ReadyAt(ps, q, b0, m0, v0, narrow, deflect);
    SweepOutcome(ps[q], Sweep(ps, q, b0, m0, v0, narrow, deflect), narrow, deflect)
  }

  /** The survivor pair `q` becomes: not reused for the next frame, with
      its step's context. */
  function SurvivorAt(ps: seq<TreeCollisionPair>, q: nat, b0: seq<TreeBatch>, m0: map<nat, Manifold>,
                      v0: nat -> Impact, narrow: NarrowPhase, deflect: Deflector): TreeCollisionPair
    requires AllReady(ps, b0, m0) && DistinctManifolds(ps) && q < |ps|
  {
    ps[q].(reused := false, tcCtx := OutcomeAt(ps, q, b0, m0, v0, narrow, deflect).ctx)
  }

  /** The pairs kept after one more pair: the survivor of a live pair is
      appended, any other pair adds nothing. */
  lemma KeptStep(ps: seq<TreeCollisionPair>, k: nat, b0: seq<TreeBatch>, m0: map<nat, Manifold>,
                 v0: nat -> Impact, narrow: NarrowPhase, deflect: Deflector)
    requires AllReady(ps, b0, m0) && DistinctManifolds(ps) && k < |ps|
    ensures Sweep(ps, k + 1, b0, m0, v0, narrow, deflect).kept ==
            Sweep(ps, k, b0, m0, v0, narrow, deflect).kept +
            (if Live(ps[k]) then [SurvivorAt(ps, k, b0, m0, v0, narrow, deflect)] else [])
  {
    ReadyAt(ps, k, b0, m0, v0, narrow, deflect);
  }

  /** A body's impact state after one more pair: a live pair of that body
      sets it to its step's, any other pair leaves it. */
  lemma ImpactStep(ps: seq<TreeCollisionPair>, k: nat, b0: seq<TreeBatch>, m0: map<nat, Manifold>,
                   v0: nat -> Impact, narrow: NarrowPhase, deflect: Deflector, x: nat)
    requires AllReady(ps, b0, m0) && DistinctManifolds(ps) && k < |ps|
    ensures Sweep(ps, k + 1, b0, m0, v0, narrow, deflect).impacts(x) ==
            if Live(ps[k]) && ps[k].obj == x then OutcomeAt(ps, k, b0, m0, v0, narrow, deflect).impact
            else Sweep(ps, k, b0, m0, v0, narrow, deflect).impacts(x)
  {
    ReadyAt(ps, k, b0, m0, v0, narrow, deflect);
  }

  /** The manifold table after one more pair: an inactive pair leaves it,
      an unreused pair's manifold is released, a live pair's holds its
      step's points. */
  lemma ManifoldStep(ps: seq<TreeCollisionPair>, k: nat, b0: seq<TreeBatch>, m0: map<nat, Manifold>,
                     v0: nat -> Impact, narrow: NarrowPhase, deflect: Deflector)
    requires AllReady(ps, b0, m0) && DistinctManifolds(ps) && k < |ps|
    ensures var m1 := Sweep(ps, k, b0, m0, v0, narrow, deflect).manifolds;
            var x := ps[k].manifold;
            Sweep(ps, k + 1, b0, m0, v0, narrow, deflect).manifolds ==
            if !ps[k].active then m1
            else if !ps[k].reused then m1 - {x}
            else m1[x := m0[x].(points := OutcomeAt(ps, k, b0, m0, v0, narrow, deflect).points)]
  {
    ReadyAt(ps, k, b0, m0, v0, narrow, deflect);
  }

  /** A pair's step changes of its body's impact state at most the
      velocity. */
  lemma OutcomeKeepsMass(ps: seq<TreeCollisionPair>, k: nat, b0: seq<TreeBatch>, m0: map<nat, Manifold>,
                         v0: nat -> Impact, narrow: NarrowPhase, deflect: Deflector)
    requires AllReady(ps, b0, m0) && DistinctManifolds(ps) && k < |ps|
    ensures var v := OutcomeAt(ps, k, b0, m0, v0, narrow, deflect).impact;
            v == Sweep(ps, k, b0, m0, v0, narrow, deflect).impacts(ps[k].obj).(speed := v.speed, negVelDir := v.negVelDir)
  {
    ReadyAt(ps, k, b0, m0, v0, narrow, deflect);
    var s := Sweep(ps, k, b0, m0, v0, narrow, deflect);
    var p := ps[k];
    StepWritesOnlyVelocityAndSpring(p.tcCtx, PairTree(p, s.batches), PairProxy(p, s.batches).capsuleHeight / 2.0,
                                    narrow(p, PairProxy(p, s.batches), s.manifolds[p.manifold].points),
                                    s.impacts(p.obj), deflect);
  }

  /** The loop body of the sweep, on one pair and the tables the pairs
      before it have left: an inactive pair's tree has its spring cleared,
      an unreused pair's manifold is released, and a live pair is stepped,
      kept, and its manifold, tree and body updated. */
  method SweepOne(p: TreeCollisionPair, narrow: NarrowPhase, deflect: Deflector,
                  kept: seq<TreeCollisionPair>, ms: map<nat, Manifold>, bs: seq<TreeBatch>, vs: nat -> Impact)
    returns (kept': seq<TreeCollisionPair>, ms': map<nat, Manifold>, bs': seq<TreeBatch>, vs': nat -> Impact)
    requires SweepReady(p, bs, ms)
    ensures SweepState(kept', ms', bs', vs') == SweepStep(SweepState(kept, ms, bs, vs), p, narrow, deflect)
  {
    kept', ms', bs', vs' := kept, ms, bs, vs;
    var bid := PairBatch(p);
    var tid := PairSlot(p);
    if !p.active {
      bs' := bs[bid := bs[bid].(trees := bs[bid].trees[tid := ClearSpring(bs[bid].trees[tid])])];
    } else if !p.reused {
      ms' := ms - {p.manifold};
    } else {
      var proxy := bs[bid].info[tid];
      var pts := narrow(p, proxy, ms[p.manifold].points);
      var o := StepPair(p.tcCtx, bs[bid].trees[tid], proxy.capsuleHeight / 2.0, pts, vs(p.obj), deflect);
      kept' := kept + [p.(reused := false, tcCtx := o.ctx)];
      ms' := ms[p.manifold := ms[p.manifold].(points := o.points)];
      bs' := bs[bid := bs[bid].(trees := bs[bid].trees[tid := o.tree])];
      vs' := SetImpact(vs, p.obj, o.impact);
    }
  }

  /** The sweep's loop, on the tables' values: pairs are visited in order,
      each seeing the cache and the bodies as the pairs before it left
      them. */
  method SweepPairs(ps: seq<TreeCollisionPair>, b0: seq<TreeBatch>, m0: map<nat, Manifold>, v0: nat -> Impact,
                    narrow: NarrowPhase, deflect: Deflector)
    returns (kept: seq<TreeCollisionPair>, ms: map<nat, Manifold>, bs: seq<TreeBatch>, vs: nat -> Impact)
    requires AllReady(ps, b0, m0) && DistinctManifolds(ps)
    ensures SweepState(kept, ms, bs, vs) == Sweep(ps, |ps|, b0, m0, v0, narrow, deflect)
  {
    kept, ms, bs, vs := [], m0, b0, v0;
    var k := 0;
    while k < |ps|
      invariant 0 <= k <= |ps|
      invariant SweepState(kept, ms, bs, vs) == Sweep(ps, k, b0, m0, v0, narrow, deflect)
    {
      ReadyAt(ps, k, b0, m0, v0, narrow, deflect);
      kept, ms, bs, vs := SweepOne(ps[k], narrow, deflect, kept, ms, bs, vs);
      k := k + 1;
    }
  }

  /** After the first `k` pairs, the pairs kept are exactly the survivors
      of the live pairs among them: active and reused this frame. */
  lemma {:induction false} SweptMembers(ps: seq<TreeCollisionPair>, k: nat, b0: seq<TreeBatch>, m0: map<nat, Manifold>,
                                        v0: nat -> Impact, narrow: NarrowPhase, deflect: Deflector)
    requires AllReady(ps, b0, m0) && DistinctManifolds(ps) && k <= |ps|
    ensures forall x :: x in Sweep(ps, k, b0, m0, v0, narrow, deflect).kept <==>
              exists q :: 0 <= q < k && Live(ps[q]) && x == SurvivorAt(ps, q, b0, m0, v0, narrow, deflect)
  {
    if k > 0 {
      KeptStep(ps, k - 1, b0, m0, v0, narrow, deflect);
      SweptMembers(ps, k - 1, b0, m0, v0, narrow, deflect);
      var before := Sweep(ps, k - 1, b0, m0, v0, narrow, deflect).kept;
      var after := Sweep(ps, k, b0, m0, v0, narrow, deflect).kept;
      forall x | x in after
        ensures exists q :: 0 <= q < k && Live(ps[q]) && x == SurvivorAt(ps, q, b0, m0, v0, narrow, deflect)
      {
        if x !in before {
          assert Live(ps[k - 1]) && x == SurvivorAt(ps, k - 1, b0, m0, v0, narrow, deflect);
        }
      }
      forall x | exists q :: 0 <= q < k && Live(ps[q]) && x == SurvivorAt(ps, q, b0, m0, v0, narrow, deflect)
        ensures x in after
      {
        var q :| 0 <= q < k && Live(ps[q]) && x == SurvivorAt(ps, q, b0, m0, v0, narrow, deflect);
        if q < k - 1 {
          assert x in before;
        }
      }
    }
  }

  /** `x` keeps the body, key and manifold of `p`. */
  predicate FromPair(x: TreeCollisionPair, p: TreeCollisionPair) {
    PairEq(x, p) && x.manifold == p.manifold
  }

  /** After the first `k` pairs, every pair kept has the body, key and
      manifold of one of them. */
  lemma {:induction false} SweptFrom(ps: seq<TreeCollisionPair>, k: nat, b0: seq<TreeBatch>, m0: map<nat, Manifold>,
                                     v0: nat -> Impact, narrow: NarrowPhase, deflect: Deflector)
    requires AllReady(ps, b0, m0) && DistinctManifolds(ps) && k <= |ps|
    ensures forall x :: x in Sweep(ps, k, b0, m0, v0, narrow, deflect).kept ==>
              exists q :: 0 <= q < k && FromPair(x, ps[q])
  {
    if k > 0 {
      KeptStep(ps, k - 1, b0, m0, v0, narrow, deflect);
      SweptFrom(ps, k - 1, b0, m0, v0, narrow, deflect);
      if Live(ps[k - 1]) {
        assert FromPair(SurvivorAt(ps, k - 1, b0, m0, v0, narrow, deflect), ps[k - 1]);
      }
    }
  }

  predicate SweptUnique(ps: seq<TreeCollisionPair>) {
    forall a, b :: 0 <= a < b < |ps| ==> !PairEq(ps[a], ps[b]) && ps[a].manifold != ps[b].manifold
  }

  /** Pairs the sweep keeps stay unique by (body, key) and keep distinct
      manifolds. */
  lemma {:induction false} SweptDistinct(ps: seq<TreeCollisionPair>, k: nat, b0: seq<TreeBatch>, m0: map<nat, Manifold>,
                                         v0: nat -> Impact, narrow: NarrowPhase, deflect: Deflector)
    requires AllReady(ps, b0, m0) && DistinctManifolds(ps) && k <= |ps|
    requires forall a, b :: 0 <= a < b < |ps| ==> !PairEq(ps[a], ps[b])
    ensures SweptUnique(Sweep(ps, k, b0, m0, v0, narrow, deflect).kept)
  {
    if k > 0 {
      var n := k - 1;
      KeptStep(ps, n, b0, m0, v0, narrow, deflect);
      SweptDistinct(ps, n, b0, m0, v0, narrow, deflect);
      SweptFrom(ps, n, b0, m0, v0, narrow, deflect);
      var sw1 := Sweep(ps, n, b0, m0, v0, narrow, deflect).kept;
      if Live(ps[n]) {
        var y := SurvivorAt(ps, n, b0, m0, v0, narrow, deflect);
        var sw := sw1 + [y];
        forall a | 0 <= a < |sw1| ensures !PairEq(sw1[a], y) && sw1[a].manifold != y.manifold {
          assert sw1[a] in sw1;
        }
        forall a, b | 0 <= a < b < |sw| ensures !PairEq(sw[a], sw[b]) && sw[a].manifold != sw[b].manifold {
          if b < |sw1| {
            assert sw[a] == sw1[a] && sw[b] == sw1[b];
          } else {
            assert sw[a] == sw1[a] && sw[b] == y;
          }
        }
      }
    }
  }

  /** What the first `k` pairs do to the manifold of pair `q` among them:
      an inactive pair's is left alone, an unreused pair's is released, a
      surviving pair's holds its step's points with owner and partner
      kept. */
  lemma {:induction false} SweptManifoldOf(ps: seq<TreeCollisionPair>, k: nat, b0: seq<TreeBatch>, m0: map<nat, Manifold>,
                                           v0: nat -> Impact, narrow: NarrowPhase, deflect: Deflector, q: nat)
    requires AllReady(ps, b0, m0) && DistinctManifolds(ps) && q < k <= |ps|
    ensures var ms := Sweep(ps, k, b0, m0, v0, narrow, deflect).manifolds;
            var x := ps[q].manifold;
            (!ps[q].active ==> x in ms && ms[x] == m0[x]) &&
            (ps[q].active && !ps[q].reused ==> x !in ms) &&
            (Live(ps[q]) ==>
               x in ms && ms[x] == m0[x].(points := OutcomeAt(ps, q, b0, m0, v0, narrow, deflect).points))
  {
    var n := k - 1;
    ManifoldStep(ps, n, b0, m0, v0, narrow, deflect);
    if q < n {
      assert ps[n].manifold != ps[q].manifold;
      SweptManifoldOf(ps, n, b0, m0, v0, narrow, deflect, q);
    } else {
      ReadyAt(ps, n, b0, m0, v0, narrow, deflect);
    }
  }

  /** Pair `q`'s step leaves the cache with the spring bytes of its tree
      cleared when the pair is inactive, and with the tree its step left
      when it is live. */
  lemma SweptSpringCleared(ps: seq<TreeCollisionPair>, b0: seq<TreeBatch>, m0: map<nat, Manifold>,
                           v0: nat -> Impact, narrow: NarrowPhase, deflect: Deflector, q: nat)
    requires AllReady(ps, b0, m0) && DistinctManifolds(ps) && q < |ps|
    ensures var bs := Sweep(ps, q + 1, b0, m0, v0, narrow, deflect).batches;
            var b := PairBatch(ps[q]);
            var t := PairSlot(ps[q]);
            b < |bs| && t < |bs[b].trees| &&
            (!ps[q].active ==> bs[b].trees[t].springForceUv == (0, 0)) &&
            (Live(ps[q]) ==> bs[b].trees[t] == OutcomeAt(ps, q, b0, m0, v0, narrow, deflect).tree)
  {
    ReadyAt(ps, q, b0, m0, v0, narrow, deflect);
    var s := Sweep(ps, q, b0, m0, v0, narrow, deflect);
    assert PairSlot(ps[q]) < |s.batches[PairBatch(ps[q])].trees|;
  }

  predicate NamesTree(p: TreeCollisionPair, b: nat, t: nat) {
    PairBatch(p) == b && PairSlot(p) == t
  }

  predicate HasTree(bs: seq<TreeBatch>, b: nat, t: nat) {
    b < |bs| && t < |bs[b].trees|
  }

  /** A step of a pair that does not name a tree leaves that tree. */
  lemma TreeStep(s: SweepState, p: TreeCollisionPair, narrow: NarrowPhase, deflect: Deflector, b: nat, t: nat)
    requires HasTree(s.batches, b, t) && !NamesTree(p, b, t)
    ensures var r := SweepStep(s, p, narrow, deflect).batches;
            HasTree(r, b, t) && r[b].trees[t] == s.batches[b].trees[t]
  {
  }

  /** Every tree of the cache before the sweep is still there after any
      number of its pairs. */
  lemma SweptHasTree(ps: seq<TreeCollisionPair>, k: nat, b0: seq<TreeBatch>, m0: map<nat, Manifold>,
                     v0: nat -> Impact, narrow: NarrowPhase, deflect: Deflector, b: nat, t: nat)
    requires k <= |ps| && HasTree(b0, b, t)
    ensures HasTree(Sweep(ps, k, b0, m0, v0, narrow, deflect).batches, b, t)
  {
    SweptShape(ps, k, b0, m0, v0, narrow, deflect);
  }

  /** A tree that none of the pairs from `j` to `k` names keeps, after
      them, the state the first `j` pairs left it in; with `j` = 0, a tree
      no pair names is untouched. */
  lemma {:induction false} SweptTreeUntouched(ps: seq<TreeCollisionPair>, j: nat, k: nat, b0: seq<TreeBatch>,
                                              m0: map<nat, Manifold>, v0: nat -> Impact, narrow: NarrowPhase,
                                              deflect: Deflector, b: nat, t: nat)
    requires j <= k <= |ps| && HasTree(b0, b, t)
    requires forall r :: j <= r < k ==> !NamesTree(ps[r], b, t)
    ensures var s := Sweep(ps, k, b0, m0, v0, narrow, deflect).batches;
            var sj := Sweep(ps, j, b0, m0, v0, narrow, deflect).batches;
            HasTree(s, b, t) && HasTree(sj, b, t) && s[b].trees[t] == sj[b].trees[t]
  {
    SweptHasTree(ps, j, b0, m0, v0, narrow, deflect, b, t);
    if j < k {
      SweptTreeUntouched(ps, j, k - 1, b0, m0, v0, narrow, deflect, b, t);
      TreeStep(Sweep(ps, k - 1, b0, m0, v0, narrow, deflect), ps[k - 1], narrow, deflect, b, t);
    }
  }

  /** The first `k` pairs change of each body's impact state at most its
      velocity. */
  lemma {:induction false} SweptImpactsKeepMass(ps: seq<TreeCollisionPair>, k: nat, b0: seq<TreeBatch>,
                                                m0: map<nat, Manifold>, v0: nat -> Impact,
                                                narrow: NarrowPhase, deflect: Deflector, x: nat)
    requires AllReady(ps, b0, m0) && DistinctManifolds(ps) && k <= |ps|
    ensures var v := Sweep(ps, k, b0, m0, v0, narrow, deflect).impacts(x);
            v == v0(x).(speed := v.speed, negVelDir := v.negVelDir)
  {
    if k > 0 {
      ImpactStep(ps, k - 1, b0, m0, v0, narrow, deflect, x);
      SweptImpactsKeepMass(ps, k - 1, b0, m0, v0, narrow, deflect, x);
      if Live(ps[k - 1]) && ps[k - 1].obj == x {
        OutcomeKeepsMass(ps, k - 1, b0, m0, v0, narrow, deflect);
      }
    }
  }

  /** A body no live pair among the first `k` belongs to keeps its impact
      state through them. */
  lemma {:induction false} SweptImpactsUntouched(ps: seq<TreeCollisionPair>, k: nat, b0: seq<TreeBatch>,
                                                 m0: map<nat, Manifold>, v0: nat -> Impact,
                                                 narrow: NarrowPhase, deflect: Deflector, x: nat)
    requires AllReady(ps, b0, m0) && DistinctManifolds(ps) && k <= |ps|
    requires forall q :: 0 <= q < k && Live(ps[q]) ==> ps[q].obj != x
    ensures Sweep(ps, k, b0, m0, v0, narrow, deflect).impacts(x) == v0(x)
  {
    if k > 0 {
      ImpactStep(ps, k - 1, b0, m0, v0, narrow, deflect, x);
      SweptImpactsUntouched(ps, k - 1, b0, m0, v0, narrow, deflect, x);
    }
  }

  /** A live pair's step reads its body's impact state as the pairs before
      it left it, and hands the state its own step leaves to the pairs
      after it. */
  lemma SweepHandsOnVelocity(ps: seq<TreeCollisionPair>, b0: seq<TreeBatch>, m0: map<nat, Manifold>,
                             v0: nat -> Impact, narrow: NarrowPhase, deflect: Deflector, q: nat)
    requires AllReady(ps, b0, m0) && DistinctManifolds(ps) && q < |ps| && Live(ps[q])
    ensures Sweep(ps, q + 1, b0, m0, v0, narrow, deflect).impacts(ps[q].obj) ==
            OutcomeAt(ps, q, b0, m0, v0, narrow, deflect).impact
  {
    ReadyAt(ps, q, b0, m0, v0, narrow, deflect);
  }

  /** Every planet manifold of `m1` is in `m2`, unchanged. */
  predicate PlanetUntouched(m1: map<nat, Manifold>, m2: map<nat, Manifold>) {
    forall x :: x in m1 && m1[x].partner == Planet ==> x in m2 && m2[x] == m1[x]
  }

  /** A body's terrain result survives any change that keeps the planet
      manifolds. */
  lemma TerrainResultPlanet(x: nat, bodies: map<nat, Body>, slots: seq<Option<nat>>,
                            m1: map<nat, Manifold>, m2: map<nat, Manifold>, pts: seq<ContactPoint>)
    requires SlotsOk(bodies, slots, m1) && x in bodies && PlanetUntouched(m1, m2)
    requires TerrainResult(x, bodies, slots, m1, pts)
    ensures TerrainResult(x, bodies, slots, m2, pts)
  {
    assert HandleOkIn(x, bodies, slots, m1);
  }

  /** Every pair left by the sweep is active and waits to be reused by the
      next frame's preparation. */
  lemma SweptAwaitReuse(ps: seq<TreeCollisionPair>, b0: seq<TreeBatch>, m0: map<nat, Manifold>,
                        v0: nat -> Impact, narrow: NarrowPhase, deflect: Deflector)
    requires AllReady(ps, b0, m0) && DistinctManifolds(ps)
    ensures var sw := Sweep(ps, |ps|, b0, m0, v0, narrow, deflect).kept;
            forall k :: 0 <= k < |sw| ==> sw[k].active && !sw[k].reused
  {
    var sw := Sweep(ps, |ps|, b0, m0, v0, narrow, deflect).kept;
    SweptMembers(ps, |ps|, b0, m0, v0, narrow, deflect);
    forall k | 0 <= k < |sw| ensures sw[k].active && !sw[k].reused {
      assert sw[k] in sw;
    }
  }

  /** A cache that differs from a consistent one only in spring bytes is
      consistent. */
  lemma SpringOnlyBatchesOk(b0: seq<TreeBatch>, bs: seq<TreeBatch>, base: nat)
    requires BatchesOk(b0, base) && SpringOnly(b0, bs)
    ensures BatchesOk(bs, base)
  {
    forall b | 0 <= b < |bs| ensures BatchOk(bs[b], base) {
      assert BatchOk(b0[b], base);
      assert bs[b] == b0[b].(trees := bs[b].trees);
      forall i | 0 <= i < |bs[b].trees| ensures IsPhysical(bs[b].trees[i]) {
        assert IsPhysical(b0[b].trees[i]);
      }
    }
  }

  lemma ValidSweepReady(ps: seq<TreeCollisionPair>, batches: seq<TreeBatch>, base: nat, manifolds: map<nat, Manifold>)
    requires PairsOk(ps, batches, base, manifolds) && BatchesOk(batches, base)
    ensures AllReady(ps, batches, manifolds) && DistinctManifolds(ps)
  {
    forall q | 0 <= q < |ps| ensures SweepReady(ps[q], batches, manifolds) {
      assert PairOkIn(ps[q], batches, base, manifolds);
      assert BatchOk(batches[PairBatch(ps[q])], base);
    }
  }

  /** The sweep keeps every consistency invariant of the world. */
  lemma SweptValid(bodies: map<nat, Body>, order: seq<nat>, slots: seq<Option<nat>>, next: nat,
                   ps: seq<TreeCollisionPair>, b0: seq<TreeBatch>, base: nat, m0: map<nat, Manifold>,
                   v0: nat -> Impact, narrow: NarrowPhase, deflect: Deflector)
    requires IdsOk(bodies, order, m0, next) && SlotsOk(bodies, slots, m0)
    requires BatchesOk(b0, base) && PairsOk(ps, b0, base, m0)
    ensures AllReady(ps, b0, m0) && DistinctManifolds(ps)
    ensures var s := Sweep(ps, |ps|, b0, m0, v0, narrow, deflect);
            IdsOk(bodies, order, s.manifolds, next) && SlotsOk(bodies, slots, s.manifolds) &&
            BatchesOk(s.batches, base) && PairsOk(s.kept, s.batches, base, s.manifolds) &&
            PlanetUntouched(m0, s.manifolds)
  {
    ValidSweepReady(ps, b0, base, m0);
    var s := Sweep(ps, |ps|, b0, m0, v0, narrow, deflect);
    var ms := s.manifolds;
    var bs := s.batches;
    var sw := s.kept;
    SweptShape(ps, |ps|, b0, m0, v0, narrow, deflect);
    PlanetNotInPairManifolds(ps, b0, base, m0);
    forall x | x in m0 && m0[x].partner == Planet ensures x in ms && ms[x] == m0[x] {
      assert forall q :: 0 <= q < |ps| ==> ps[q].manifold in PairManifolds(ps);
      SweptManifoldUntouched(ps, |ps|, b0, m0, v0, narrow, deflect, x);
    }
    SlotsOkFramePlanet(bodies, slots, m0, ms);
    SpringOnlyBatchesOk(b0, bs, base);
    SweptMembers(ps, |ps|, b0, m0, v0, narrow, deflect);
    SweptDistinct(ps, |ps|, b0, m0, v0, narrow, deflect);
    forall k | 0 <= k < |sw| ensures PairOkIn(sw[k], bs, base, ms) {
      assert sw[k] in sw;
      var q :| 0 <= q < |ps| && Live(ps[q]) && sw[k] == SurvivorAt(ps, q, b0, m0, v0, narrow, deflect);
      assert PairOkIn(ps[q], b0, base, m0);
      assert bs[PairBatch(ps[q])] == b0[PairBatch(ps[q])].(trees := bs[PairBatch(ps[q])].trees);
      SweptManifoldOf(ps, |ps|, b0, m0, v0, narrow, deflect, q);
    }
  }

  class World {
    /** The collision objects by id, and their order in the world's list. */
    var bodies: map<nat, Body>
    var order: seq<nat>
    /** The terrain manifold slot table; a body's handle indexes it. */
    var slots: seq<Option<nat>>
    /** The dispatcher's live manifolds, and the next fresh manifold id (0 is null). */
    var manifolds: map<nat, Manifold>
    var nextManifold: nat
    /** The tree-batch cache, indexed by batch handle, and the address of its storage. */
    var batches: seq<TreeBatch>
    var base: nat
    /** The (body, tree) pair table. */
    var pairs: seq<TreeCollisionPair>
    /** The terrain step's frame counter. */
    var frame: nat
    /** Unit vector of a position (the tree axis). */
    const unitOf: Vec3 -> Vec3

    constructor (unitOf: Vec3 -> Vec3, base: nat)
      ensures Valid()
      ensures bodies == map[] && order == [] && slots == [] && manifolds == map[]
      ensures batches == [] && pairs == [] && frame == 0 && this.base == base
      ensures this.unitOf == unitOf
    {
      bodies := map[];
      order := [];
      slots := [];
      manifolds := map[];
      nextManifold := 1;
      batches := [];
      this.base := base;
      pairs := [];
      frame := 0;
      this.unitOf := unitOf;
    }

    predicate Valid()
      reads this
    {
      IdsOk(bodies, order, manifolds, nextManifold) && SlotsOk(bodies, slots, manifolds) &&
      BatchesOk(batches, base) && PairsOk(pairs, batches, base, manifolds) && frame < UMAX32
    }

    /** `removeRigidBody`: a held terrain manifold has its slot deleted and is
        released; the handle of the removed body reads none; the body leaves
        the world, its place in the object list taken by the last object.
        Its tree pairs stay until the next sweep. */
    method RemoveRigidBody(id: nat) returns (removed: Body)
      requires Valid() && id in bodies
      modifies this
      ensures Valid()
      ensures removed == old(bodies[id]).(handle := UMAX32)
      ensures bodies == old(bodies) - {id}
      ensures order == SwapRemove(old(order), id)
      ensures old(bodies[id].handle) == UMAX32 ==> slots == old(slots) && manifolds == old(manifolds)
      ensures old(bodies[id].handle) != UMAX32 ==>
                old(bodies[id].handle) < |old(slots)| && old(slots)[old(bodies[id].handle)].Some? &&
                slots == old(slots)[old(bodies[id].handle) := None] &&
                manifolds == old(manifolds) - {old(slots)[old(bodies[id].handle)].value}
      ensures batches == old(batches) && base == old(base) && pairs == old(pairs)
      ensures frame == old(frame) && nextManifold == old(nextManifold)
    {
      var b := bodies[id];
      var o2 := SwapRemove(order, id);
      RemovalOk(bodies, order, slots, manifolds, nextManifold, pairs, batches, base, id);
      if b.handle != UMAX32 {
        var m := slots[b.handle].value;
        slots := slots[b.handle := None];
        manifolds := manifolds - {m};
      }
      removed := b.(handle := UMAX32);
      bodies := bodies - {id};
      order := o2;
    }

    /** The terrain manifold of a body about to be processed: a body holding
        none gets a fresh manifold with the planet, stored in the first free
        slot, whose index becomes its handle; otherwise the held one is
        looked up. */
    method AcquireTerrainManifold(id: nat) returns (m: nat)
      requires Valid() && id in bodies && |slots| < UMAX32
      modifies this
      ensures Valid()
      ensures bodies.Keys == old(bodies).Keys
      ensures bodies == old(bodies)[id := old(bodies[id]).(handle := bodies[id].handle)]
      ensures bodies[id].handle != UMAX32 && bodies[id].handle < |slots| && slots[bodies[id].handle] == Some(m)
      ensures m in manifolds && manifolds[m].obj == id && manifolds[m].partner == Planet
      ensures old(bodies[id].handle) != UMAX32 ==>
                bodies == old(bodies) && slots == old(slots) && manifolds == old(manifolds) &&
                nextManifold == old(nextManifold)
      ensures old(bodies[id].handle) == UMAX32 ==>
                m == old(nextManifold) && nextManifold == old(nextManifold) + 1 &&
                manifolds == old(manifolds)[m := Manifold(id, Planet, [])] &&
                bodies[id].handle <= |old(slots)| &&
                (bodies[id].handle < |old(slots)| ==> old(slots)[bodies[id].handle].None?) &&
                (forall g :: 0 <= g < bodies[id].handle ==> old(slots)[g].Some?)
      ensures |slots| <= |old(slots)| + 1
      ensures OthersKept(old(slots), old(manifolds), slots, manifolds, id)
      ensures order == old(order) && batches == old(batches) && base == old(base)
      ensures pairs == old(pairs) && frame == old(frame)
    {
      var b := bodies[id];
      assert HandleOkIn(id, bodies, slots, manifolds);
      if b.handle == UMAX32 {
        m := NewTerrainManifold(id);
      } else {
        m := slots[b.handle].value;
      }
    }

    /** A body holding no terrain manifold gets a fresh one with the planet,
        stored in the first free slot, whose index becomes its handle. */
    method NewTerrainManifold(id: nat) returns (m: nat)
      requires Valid() && id in bodies && bodies[id].handle == UMAX32 && |slots| < UMAX32
      modifies this
      ensures Valid()
      ensures bodies.Keys == old(bodies).Keys
      ensures bodies == old(bodies)[id := old(bodies[id]).(handle := bodies[id].handle)]
      ensures bodies[id].handle != UMAX32 && bodies[id].handle < |slots| && slots[bodies[id].handle] == Some(m)
      ensures m == old(nextManifold) && nextManifold == old(nextManifold) + 1
      ensures manifolds == old(manifolds)[m := Manifold(id, Planet, [])]
      ensures bodies[id].handle <= |old(slots)|
      ensures bodies[id].handle < |old(slots)| ==> old(slots)[bodies[id].handle].None?
      ensures forall g :: 0 <= g < bodies[id].handle ==> old(slots)[g].Some?
      ensures |slots| <= |old(slots)| + 1
      ensures OthersKept(old(slots), old(manifolds), slots, manifolds, id)
      ensures order == old(order) && batches == old(batches) && base == old(base)
      ensures pairs == old(pairs) && frame == old(frame)
    {
      m := nextManifold;
      var h := FreeSlot(slots);
      IdsOkAcquire(bodies, order, manifolds, m, id, h);
      SlotsOkAcquire(bodies, slots, manifolds, id, h, m);
      AcquireKeepsOthers(slots, manifolds, h, m, Manifold(id, Planet, []), id);
      var m2 := manifolds[m := Manifold(id, Planet, [])];
      PairsOkFrame(pairs, batches, base, manifolds, m2);
      var s2 := if h < |slots| then slots[h := Some(m)] else slots + [Some(m)];
      var b2 := bodies[id := bodies[id].(handle := h)];
      assert b2.Keys == bodies.Keys;
      bodies, slots, manifolds, nextManifold := b2, s2, m2, m + 1;
    }

    /** A processed body whose terrain manifold ended with no contacts: the
        manifold is released, its slot deleted and the handle reset to none. */
    method ReleaseTerrainManifold(id: nat)
      requires Valid() && id in bodies && bodies[id].handle != UMAX32
      modifies this
      ensures Valid()
      ensures old(bodies[id].handle) < |old(slots)| && old(slots)[old(bodies[id].handle)].Some?
      ensures bodies == old(bodies)[id := old(bodies[id]).(handle := UMAX32)]
      ensures slots == old(slots)[old(bodies[id].handle) := None]
      ensures manifolds == old(manifolds) - {old(slots)[old(bodies[id].handle)].value}
      ensures order == old(order) && batches == old(batches) && base == old(base)
      ensures pairs == old(pairs) && frame == old(frame) && nextManifold == old(nextManifold)
    {
      var b := bodies[id];
      SlotsOkRelease(bodies, slots, manifolds, id);
      var m := slots[b.handle].value;
      PlanetNotPaired(pairs, batches, base, manifolds, m);
      PairsOkFrame(pairs, batches, base, manifolds, manifolds - {m});
      slots := slots[b.handle := None];
      manifolds := manifolds - {m};
      bodies := bodies[id := b.(handle := UMAX32)];
    }

    /** `repair_tree_batches`: every built batch has its proxies' shape links
        retaken at the current address; unbuilt batches are left alone. */
    method RepairTreeBatches()
      requires BatchesShaped(batches)
      modifies this
      ensures BatchesOk(batches, base)
      ensures |batches| == |old(batches)|
      ensures forall b :: 0 <= b < |batches| ==> batches[b] == Repaired(old(batches)[b], base)
      ensures bodies == old(bodies) && order == old(order) && slots == old(slots)
      ensures manifolds == old(manifolds) && nextManifold == old(nextManifold)
      ensures base == old(base) && pairs == old(pairs) && frame == old(frame)
    {
      var b := 0;
      while b < |batches|
        invariant 0 <= b <= |batches| && |batches| == |old(batches)|
        invariant forall c :: 0 <= c < b ==> batches[c] == Repaired(old(batches)[c], base)
        invariant forall c :: b <= c < |batches| ==> batches[c] == old(batches)[c]
        invariant bodies == old(bodies) && order == old(order) && slots == old(slots)
        invariant manifolds == old(manifolds) && nextManifold == old(nextManifold)
        invariant base == old(base) && pairs == old(pairs) && frame == old(frame)
      {
        if batches[b].lastFrameUsed != 0xffff_ffff {
          batches := batches[b := Relinked(batches[b], base)];
        }
        b := b + 1;
      }
    }

    /** `repair_tree_collision_pairs`: every pair's manifold is re-pointed at
        the pair's body and at the proxy decoded from its packed key,
        `bid = key >> 4`, `tid = key & 0xf`, at the current address. */
    method RepairTreeCollisionPairs(ghost oldBase: nat)
      requires PairsOk(pairs, batches, oldBase, manifolds)
      modifies this
      ensures PairsOk(pairs, batches, base, manifolds)
      ensures manifolds.Keys == old(manifolds).Keys
      ensures forall k :: 0 <= k < |pairs| ==>
                manifolds[pairs[k].manifold] ==
                old(manifolds)[pairs[k].manifold].(partner := TreeProxyAt(base, PairBatch(pairs[k]), PairSlot(pairs[k])))
      ensures forall m :: m in manifolds && m !in PairManifolds(pairs) ==> manifolds[m] == old(manifolds)[m]
      ensures bodies == old(bodies) && order == old(order) && slots == old(slots)
      ensures batches == old(batches) && nextManifold == old(nextManifold)
      ensures base == old(base) && pairs == old(pairs) && frame == old(frame)
    {
      var k := 0;
      while k < |pairs|
        invariant 0 <= k <= |pairs|
        invariant manifolds.Keys == old(manifolds).Keys
        invariant forall q :: 0 <= q < |pairs| ==> pairs[q].manifold in old(manifolds)
        invariant forall q :: 0 <= q < k ==>
                    manifolds[pairs[q].manifold] ==
                    old(manifolds)[pairs[q].manifold].(partner := TreeProxyAt(base, PairBatch(pairs[q]), PairSlot(pairs[q])))
        invariant forall m :: m in manifolds && (forall q :: 0 <= q < k ==> pairs[q].manifold != m) ==>
                    manifolds[m] == old(manifolds)[m]
        invariant bodies == old(bodies) && order == old(order) && slots == old(slots)
        invariant batches == old(batches) && nextManifold == old(nextManifold)
        invariant base == old(base) && pairs == old(pairs) && frame == old(frame)
      {
        var p := pairs[k];
        assert PairOkIn(p, batches, oldBase, old(manifolds));
        assert p.manifold in old(manifolds).Keys;
        assert p.manifold in manifolds;
        manifolds := manifolds[p.manifold := manifolds[p.manifold].(obj := p.obj,
                                 partner := TreeProxyAt(base, PairBatch(p), PairSlot(p)))];
        k := k + 1;
      }
      forall q | 0 <= q < |pairs| ensures PairOkIn(pairs[q], batches, base, manifolds) {
        assert PairOkIn(pairs[q], batches, oldBase, old(manifolds));
      }
    }

    /** The find-or-add of one (body, tree) pair: an equal pair already in
        the table is marked reused; otherwise a pair initialised from the
        key and the tree is appended, marked reused, with a new manifold
        between the body and the tree's proxy. */
    method TouchPair(obj: nat, bid: nat, tid: nat, l: real)
      requires Valid()
      requires bid < |batches| && bid < MAX_BATCH_ID
      requires tid < batches[bid].treeCount && batches[bid].lastFrameUsed != UMAX32
      modifies this
      ensures Valid()
      ensures Covered(pairs, obj, bid, tid)
      ensures Grown(old(pairs), pairs, old(nextManifold), nextManifold, old(manifolds), manifolds, batches, base, l)
      ensures |pairs| <= |old(pairs)| + 1
      ensures forall k :: 0 <= k < |pairs| && NewlyMarked(old(pairs), pairs, k) ==>
                pairs[k].obj == obj && PairBatch(pairs[k]) == bid && PairSlot(pairs[k]) == tid
      ensures bodies == old(bodies) && order == old(order) && slots == old(slots)
      ensures batches == old(batches) && base == old(base) && frame == old(frame)
    {
      assert BatchOk(batches[bid], base);
      var key := KeyPair(obj, bid, tid, l);
      var found := FindPair(pairs, key);
      if found.Some? {
        TouchExisting(pairs, batches, base, manifolds, nextManifold, l, found.value, obj, bid, tid);
        pairs := pairs[found.value := pairs[found.value].(reused := true)];
      } else {
        var m := nextManifold;
        TouchNew(bodies, order, slots, pairs, batches, base, manifolds, m, l, obj, bid, tid);
        pairs := pairs + [NewPair(obj, bid, tid, batches[bid].trees[tid], m, l)];
        manifolds := manifolds[m := Manifold(obj, TreeProxyAt(base, bid, tid), [])];
        nextManifold := nextManifold + 1;
      }
    }

    /** One referenced batch of `prepare_tree_collision_pairs`: built if it
        never was, stamped with the frame, and every tree below the count
        that is not broken and passes the hit test gets its pair touched. */
    method PrepareBatch(obj: nat, bid: nat, treeHit: (nat, nat) -> bool, l: real)
      requires Valid() && bid < |batches| && bid < MAX_BATCH_ID
      modifies this
      ensures Valid()
      ensures WellFormedBatch(old(batches)[bid])
      ensures batches == old(batches)[bid := Stamped(old(batches)[bid], frame, base, unitOf)]
      ensures forall j :: (0 <= j < old(batches)[bid].treeCount && !IsBroken(old(batches)[bid].trees[j]) &&
                           treeHit(bid, j)) ==> Covered(pairs, obj, bid, j)
      ensures Grown(old(pairs), pairs, old(nextManifold), nextManifold, old(manifolds), manifolds, old(batches), base, l)
      ensures forall k :: 0 <= k < |pairs| && NewlyMarked(old(pairs), pairs, k) ==>
                Candidate(pairs[k], obj, [bid], treeHit, old(batches))
      ensures bodies == old(bodies) && order == old(order) && slots == old(slots)
      ensures base == old(base) && frame == old(frame)
    {
      var b := batches[bid];
      assert BatchOk(b, base);
      StampedOk(b, frame, base, unitOf);
      var nb := Stamped(b, frame, base, unitOf);
      PairsOkBatchFrame(pairs, batches, batches[bid := nb], base, manifolds);
      batches := batches[bid := nb];
      ghost var b0 := old(batches);
      assert SameTrees(b0, batches);
      var j := 0;
      while j < nb.treeCount
        invariant 0 <= j <= nb.treeCount
        invariant Valid()
        invariant batches == old(batches)[bid := nb]
        invariant CoveredInBatch(pairs, obj, bid, j, nb.trees, treeHit)
        invariant MarkedInBatch(old(pairs), pairs, obj, bid, j, nb.trees, treeHit)
        invariant Grown(old(pairs), pairs, old(nextManifold), nextManifold, old(manifolds), manifolds, b0, base, l)
        invariant bodies == old(bodies) && order == old(order) && slots == old(slots)
        invariant base == old(base) && frame == old(frame)
      {
        ghost var p1, m1, n1 := pairs, manifolds, nextManifold;
        if !IsBroken(nb.trees[j]) && treeHit(bid, j) {
          TouchPair(obj, bid, j, l);
          GrownTrans(old(pairs), p1, pairs, old(nextManifold), n1, nextManifold, old(manifolds), m1, manifolds,
                     b0, batches, base, l);
          MarkedInBatchStep(old(pairs), p1, pairs, obj, bid, j, nb.trees, treeHit);
        }
        CoveredInBatchStep(p1, pairs, obj, bid, j, nb.trees, treeHit);
        j := j + 1;
      }
      MarkedInBatchCandidate(old(pairs), pairs, obj, bid, treeHit, b0);
    }

    /** `prepare_tree_collision_pairs`: every batch the query referenced is
        prepared against body `obj`, in order. */
    method PrepareTreeCollisionPairs(obj: nat, refs: seq<nat>, treeHit: (nat, nat) -> bool, l: real)
      requires Valid()
      requires forall i :: 0 <= i < |refs| ==> refs[i] < |batches| && refs[i] < MAX_BATCH_ID
      modifies this
      ensures Valid()
      ensures BatchesShaped(old(batches)) && |batches| == |old(batches)|
      ensures forall b :: 0 <= b < |batches| ==>
                batches[b] == if b in refs then Stamped(old(batches)[b], frame, base, unitOf) else old(batches)[b]
      ensures forall i, j :: 0 <= i < |refs| && 0 <= j < old(batches)[refs[i]].treeCount &&
                             !IsBroken(old(batches)[refs[i]].trees[j]) && treeHit(refs[i], j) ==>
                Covered(pairs, obj, refs[i], j)
      ensures Grown(old(pairs), pairs, old(nextManifold), nextManifold, old(manifolds), manifolds, old(batches), base, l)
      ensures forall k :: 0 <= k < |pairs| && NewlyMarked(old(pairs), pairs, k) ==>
                Candidate(pairs[k], obj, refs, treeHit, old(batches))
      ensures bodies == old(bodies) && order == old(order) && slots == old(slots)
      ensures base == old(base) && frame == old(frame)
    {
      ghost var b0 := batches;
      forall b | 0 <= b < |b0| ensures WellFormedBatch(b0[b]) && PhysicalBatch(b0[b]) {
        assert BatchOk(b0[b], base);
      }
      var i := 0;
      while i < |refs|
        invariant 0 <= i <= |refs|
        invariant Valid()
        invariant SameTrees(b0, batches) && StampedUpTo(batches, b0, refs, i, frame, base, unitOf)
        invariant CoveredUpTo(pairs, obj, refs, i, treeHit, b0)
        invariant forall k :: 0 <= k < |pairs| && NewlyMarked(old(pairs), pairs, k) ==>
                    Candidate(pairs[k], obj, refs[..i], treeHit, b0)
        invariant Grown(old(pairs), pairs, old(nextManifold), nextManifold, old(manifolds), manifolds, b0, base, l)
        invariant bodies == old(bodies) && order == old(order) && slots == old(slots)
        invariant base == old(base) && frame == old(frame)
      {
        PrepareRef(obj, refs, i, treeHit, l, old(pairs), old(nextManifold), old(manifolds), b0);
        i := i + 1;
      }
      assert refs[..i] == refs;
    }

    /** The loop body of `PrepareTreeCollisionPairs`, on reference `i`: the
        batch is prepared, and what holds for the references before `i`
        then holds for those up to `i`. `p0`, `n0`, `m0` and `b0` are the
        tables when the loop started. */
    method PrepareRef(obj: nat, refs: seq<nat>, i: nat, treeHit: (nat, nat) -> bool, l: real,
                      ghost p0: seq<TreeCollisionPair>, ghost n0: nat, ghost m0: map<nat, Manifold>,
                      ghost b0: seq<TreeBatch>)
      requires Valid() && i < |refs| && BatchesShaped(b0)
      requires forall r :: 0 <= r < |refs| ==> refs[r] < |b0| && refs[r] < MAX_BATCH_ID
      requires SameTrees(b0, batches) && StampedUpTo(batches, b0, refs, i, frame, base, unitOf)
      requires CoveredUpTo(pairs, obj, refs, i, treeHit, b0)
      requires forall k :: 0 <= k < |pairs| && NewlyMarked(p0, pairs, k) ==>
                 Candidate(pairs[k], obj, refs[..i], treeHit, b0)
      requires Grown(p0, pairs, n0, nextManifold, m0, manifolds, b0, base, l)
      modifies this
      ensures Valid()
      ensures SameTrees(b0, batches) && StampedUpTo(batches, b0, refs, i + 1, frame, base, unitOf)
      ensures CoveredUpTo(pairs, obj, refs, i + 1, treeHit, b0)
      ensures forall k :: 0 <= k < |pairs| && NewlyMarked(p0, pairs, k) ==>
                Candidate(pairs[k], obj, refs[..i + 1], treeHit, b0)
      ensures Grown(p0, pairs, n0, nextManifold, m0, manifolds, b0, base, l)
      ensures bodies == old(bodies) && order == old(order) && slots == old(slots)
      ensures base == old(base) && frame == old(frame)
    {
      var bid := refs[i];
      ghost var p1, m1, n1, bs1 := pairs, manifolds, nextManifold, batches;
      PrepareBatch(obj, bid, treeHit, l);
      assert SameTrees(bs1, batches);
      GrownTrans(p0, p1, pairs, n0, n1, nextManifold, m0, m1, manifolds, b0, bs1, base, l);
      StampedUpToStep(bs1, batches, b0, refs, i, frame, base, unitOf);
      CoveredStep(p1, pairs, obj, refs, i, treeHit, b0);
      MarkedStep(p0, p1, pairs, obj, refs, i, treeHit, b0, bs1);
    }

    /** The cache's storage moved: its address changes, then the batches and
        the pairs are repaired. Planet manifolds are untouched. */
    method Relocate()
      requires Valid()
      modifies this
      ensures Valid() && base == old(base) + 1
      ensures manifolds.Keys == old(manifolds).Keys && PlanetKept(old(manifolds), manifolds, NULL_MANIFOLD)
      ensures SameTrees(old(batches), batches) && pairs == old(pairs)
      ensures bodies == old(bodies) && order == old(order) && slots == old(slots) && frame == old(frame)
      ensures nextManifold == old(nextManifold)
    {
      ghost var ob := base;
      ghost var b0 := batches;
      forall b | 0 <= b < |b0| ensures WellFormedBatch(b0[b]) && PhysicalBatch(b0[b]) {
        assert BatchOk(b0[b], base);
      }
      base := base + 1;
      RepairTreeBatches();
      PairsOkBatchFrame(pairs, b0, batches, ob, manifolds);
      PlanetNotInPairManifolds(pairs, batches, ob, manifolds);
      ghost var m0 := manifolds;
      RepairTreeCollisionPairs(ob);
      SlotsOkFramePlanet(bodies, slots, m0, manifolds);
    }

    /** Batches the provider appended join the cache, unbuilt. */
    method GrowCache(grown: seq<TreeBatch>)
      requires Valid()
      requires forall k :: 0 <= k < |grown| ==>
                 WellFormedBatch(grown[k]) && PhysicalBatch(grown[k]) && grown[k].lastFrameUsed == UMAX32
      modifies this
      ensures Valid() && batches == old(batches) + grown && pairs == old(pairs)
      ensures bodies == old(bodies) && order == old(order) && slots == old(slots) && frame == old(frame)
      ensures manifolds == old(manifolds) && nextManifold == old(nextManifold) && base == old(base)
    {
      PairsOkGrow(pairs, batches, grown, base, manifolds);
      batches := batches + grown;
      forall b | 0 <= b < |batches| ensures BatchOk(batches[b], base) {
        if b >= |old(batches)| {
          assert batches[b] == grown[b - |old(batches)|];
        } else {
          assert batches[b] == old(batches)[b];
        }
      }
    }

    /** The contact points of terrain manifold `m` replaced by `pts` (a
        clear, or points added by the contact stage). */
    method SetTerrainPoints(m: nat, pts: seq<ContactPoint>)
      requires Valid() && m in manifolds && manifolds[m].partner == Planet
      modifies this
      ensures Valid()
      ensures manifolds == old(manifolds)[m := old(manifolds[m]).(points := pts)]
      ensures bodies == old(bodies) && order == old(order) && slots == old(slots) && frame == old(frame)
      ensures batches == old(batches) && nextManifold == old(nextManifold) && base == old(base)
      ensures pairs == old(pairs)
    {
      var m2 := manifolds[m := manifolds[m].(points := pts)];
      PlanetNotPaired(pairs, batches, base, manifolds, m);
      PairsOkFrame(pairs, batches, base, manifolds, m2);
      SlotsOkFrame(bodies, slots, manifolds, m2);
      manifolds := m2;
    }

    /** One leaf work item of a body's terrain step: a concave leaf is
        skipped; otherwise the provider is queried, and a miss ends the
        leaf. */
    method ProcessLeaf(id: nat, m: nat, leaf: CompoundFlatten.Entry, provider: Provider, l: real)
      requires Valid() && ProviderOk(provider, |batches|)
      requires m in manifolds && manifolds[m].obj == id && manifolds[m].partner == Planet
      modifies this
      ensures Valid() && |batches| >= old(|batches|)
      ensures m in manifolds
      ensures manifolds[m] == old(manifolds[m]).(points := Contributed(id, leaf, provider, frame, old(manifolds[m].points)))
      ensures PlanetKept(old(manifolds), manifolds, m)
      ensures LeafReadied(pairs, batches, id, leaf, provider, frame)
      ensures PairsExtend(old(pairs), pairs) && TreesExtend(old(batches), batches)
      ensures bodies == old(bodies) && order == old(order) && slots == old(slots) && frame == old(frame)
    {
      if leaf.shape.Concave? {
        return;
      }
      var a := provider(id, leaf, frame);
      if !a.hit {
        return;
      }
      ProcessHit(id, m, leaf, provider, l);
    }

    /** The batches a leaf's query appended join the cache; when the cache's
        storage moved, the batches and then the pairs are repaired. */
    method AdmitBatches(grown: seq<TreeBatch>, moved: bool)
      requires Valid()
      requires forall k :: 0 <= k < |grown| ==>
                 WellFormedBatch(grown[k]) && PhysicalBatch(grown[k]) && grown[k].lastFrameUsed == UMAX32
      modifies this
      ensures Valid() && |batches| == old(|batches|) + |grown| && pairs == old(pairs)
      ensures TreesExtend(old(batches), batches)
      ensures forall k :: 0 <= k < |grown| ==>
                batches[old(|batches|) + k].trees == grown[k].trees &&
                batches[old(|batches|) + k].treeCount == grown[k].treeCount
      ensures manifolds.Keys == old(manifolds).Keys && PlanetKept(old(manifolds), manifolds, NULL_MANIFOLD)
      ensures bodies == old(bodies) && order == old(order) && slots == old(slots) && frame == old(frame)
    {
      GrowCache(grown);
      if moved {
        Relocate();
      }
    }

    /** A leaf whose query found something: batches the provider appended
        join the cache; if the cache's storage moved, the batches and then
        the pairs are repaired; the contact stages act on the body's terrain
        manifold `m`, and the referenced batches are prepared against the
        body. */
    method ProcessHit(id: nat, m: nat, leaf: CompoundFlatten.Entry, provider: Provider, l: real)
      requires Valid() && ProviderOk(provider, |batches|) && Hits(id, leaf, provider, frame)
      requires m in manifolds && manifolds[m].obj == id && manifolds[m].partner == Planet
      modifies this
      ensures Valid() && |batches| >= old(|batches|)
      ensures m in manifolds
      ensures manifolds[m] == old(manifolds[m]).(points := provider(id, leaf, frame).contact(old(manifolds[m].points)))
      ensures PlanetKept(old(manifolds), manifolds, m)
      ensures LeafReadied(pairs, batches, id, leaf, provider, frame)
      ensures PairsExtend(old(pairs), pairs) && TreesExtend(old(batches), batches)
      ensures bodies == old(bodies) && order == old(order) && slots == old(slots) && frame == old(frame)
    {
      var a := provider(id, leaf, frame);
      assert AnswerOk(a, |batches|);
      AdmitBatches(a.grown, a.moved);
      SetTerrainPoints(m, a.contact(manifolds[m].points));
      ghost var p1, b1 := pairs, batches;
      if |a.refs| > 0 {
        PrepareTreeCollisionPairs(id, a.refs, a.treeHit, l);
        StampedTreesExtend(b1, batches, a.refs, frame, base, unitOf);
      }
      PreparedLeafReadied(pairs, b1, batches, id, leaf, provider, frame);
      assert TreesExtend(old(batches), b1);
      assert PairsExtend(p1, pairs);
    }

    /** The leaf loop of a body's terrain step, on its cleared terrain
        manifold `m`: afterwards `m` holds the points of all the leaves. */
    method ProcessLeaves(id: nat, m: nat, items: seq<CompoundFlatten.Entry>, provider: Provider, l: real)
      requires Valid() && ProviderOk(provider, |batches|)
      requires m in manifolds && manifolds[m].obj == id && manifolds[m].partner == Planet && manifolds[m].points == []
      modifies this
      ensures Valid() && |batches| >= old(|batches|)
      ensures m in manifolds && manifolds[m] == old(manifolds[m]).(points := LeafPoints(id, items, provider, frame))
      ensures |manifolds[m].points| <= MANIFOLD_CACHE_SIZE
      ensures PlanetKept(old(manifolds), manifolds, m)
      ensures forall k :: 0 <= k < |items| ==> LeafReadied(pairs, batches, id, items[k], provider, frame)
      ensures PairsExtend(old(pairs), pairs) && TreesExtend(old(batches), batches)
      ensures bodies == old(bodies) && order == old(order) && slots == old(slots) && frame == old(frame)
    {
      var j := 0;
      while j < |items|
        invariant 0 <= j <= |items|
        invariant Valid() && ProviderOk(provider, |batches|) && |batches| >= old(|batches|)
        invariant m in manifolds && manifolds[m] == old(manifolds[m]).(points := LeafPoints(id, items[..j], provider, frame))
        invariant PlanetKept(old(manifolds), manifolds, m)
        invariant forall k :: 0 <= k < j ==> LeafReadied(pairs, batches, id, items[k], provider, frame)
        invariant PairsExtend(old(pairs), pairs) && TreesExtend(old(batches), batches)
        invariant bodies == old(bodies) && order == old(order) && slots == old(slots) && frame == old(frame)
      {
        ghost var p1, b1 := pairs, batches;
        ProcessLeaf(id, m, items[j], provider, l);
        forall k | 0 <= k < j ensures LeafReadied(pairs, batches, id, items[k], provider, frame) {
          LeafReadiedKept(p1, b1, pairs, batches, id, items[k], provider, frame);
        }
        PairsExtendTrans(old(pairs), p1, pairs);
        TreesExtendTrans(old(batches), b1, batches);
        ProviderOkMono(provider, old(|batches|), |batches|);
        assert items[..j + 1][..j] == items[..j];
        j := j + 1;
      }
      assert items[..j] == items;
      LeafPointsBounded(id, items, provider, old(|batches|), frame);
    }

    /** A processed body whose terrain manifold `m` ended without points
        gives it back; otherwise nothing changes. */
    method FinishBody(id: nat, m: nat)
      requires Valid() && id in bodies && bodies[id].handle != UMAX32
      requires bodies[id].handle < |slots| && slots[bodies[id].handle] == Some(m) && m in manifolds
      modifies this
      ensures Valid()
      ensures id in bodies && (old(manifolds[m].points) == [] <==> bodies[id].handle == UMAX32)
      ensures bodies[id].handle != UMAX32 ==>
                bodies == old(bodies) && slots == old(slots) && manifolds == old(manifolds)
      ensures bodies == old(bodies)[id := old(bodies[id]).(handle := bodies[id].handle)]
      ensures OthersKept(old(slots), old(manifolds), slots, manifolds, id)
      ensures |slots| == |old(slots)|
      ensures order == old(order) && frame == old(frame) && batches == old(batches) && pairs == old(pairs)
    {
      if manifolds[m].points == [] {
        ghost var h0 := bodies[id].handle;
        assert manifolds[m].obj == id;
        ReleaseTerrainManifold(id);
        forall h | 0 <= h < |old(slots)| && old(slots)[h].Some? && old(slots)[h].value in old(manifolds) &&
                   old(manifolds)[old(slots)[h].value].obj != id
          ensures h < |slots| && slots[h] == old(slots)[h] && old(slots)[h].value in manifolds &&
                  manifolds[old(slots)[h].value] == old(manifolds)[old(slots)[h].value]
        {
          assert h != h0;
        }
      }
    }

    /** One body of the terrain step: a body that is static, asleep or of a
        concave shape is skipped and nothing changes; any other is
        processed. */
    method TerrainStepBody(id: nat, provider: Provider, l: real)
      requires Valid() && id in bodies && |slots| < UMAX32 && ProviderOk(provider, |batches|)
      modifies this
      ensures Valid() && |batches| >= old(|batches|)
      ensures bodies.Keys == old(bodies).Keys && order == old(order) && frame == old(frame)
      ensures bodies == old(bodies)[id := old(bodies[id]).(handle := bodies[id].handle)]
      ensures !Processable(old(bodies[id])) ==>
                bodies == old(bodies) && slots == old(slots) && manifolds == old(manifolds) &&
                batches == old(batches) && pairs == old(pairs)
      ensures Processable(old(bodies[id])) ==>
                TerrainResult(id, bodies, slots, manifolds, BodyPoints(id, old(bodies[id]), provider, frame))
      ensures Processable(old(bodies[id])) ==> BodyReadied(pairs, batches, id, old(bodies[id]), provider, frame)
      ensures PairsExtend(old(pairs), pairs) && TreesExtend(old(batches), batches)
      ensures Processable(old(bodies[id])) && old(bodies[id].handle) != UMAX32 && bodies[id].handle != UMAX32 ==>
                bodies[id].handle == old(bodies[id].handle)
      ensures OthersKept(old(slots), old(manifolds), slots, manifolds, id)
      ensures |slots| <= |old(slots)| + 1
    {
      var b := bodies[id];
      if !Processable(b) {
        return;
      }
      ProcessBody(id, provider, l);
    }

    /** The body's terrain manifold, acquired and with its points cleared. */
    method ClearedTerrainManifold(id: nat) returns (m: nat)
      requires Valid() && id in bodies && |slots| < UMAX32
      modifies this
      ensures Valid() && bodies.Keys == old(bodies).Keys
      ensures bodies == old(bodies)[id := old(bodies[id]).(handle := bodies[id].handle)]
      ensures bodies[id].handle != UMAX32 && bodies[id].handle < |slots| && slots[bodies[id].handle] == Some(m)
      ensures m in manifolds && manifolds[m].obj == id && manifolds[m].partner == Planet && manifolds[m].points == []
      ensures old(bodies[id].handle) != UMAX32 ==> bodies[id].handle == old(bodies[id].handle)
      ensures OthersKept(old(slots), old(manifolds), slots, manifolds, id)
      ensures |slots| <= |old(slots)| + 1
      ensures order == old(order) && batches == old(batches) && pairs == old(pairs) && frame == old(frame)
    {
      m := AcquireTerrainManifold(id);
      ghost var s1, m1 := slots, manifolds;
      SetTerrainPoints(m, []);
      OthersKeptPlanet(bodies, s1, m1, manifolds, m, id);
      OthersKeptTrans(old(slots), old(manifolds), s1, m1, s1, manifolds, id);
    }

    /** The terrain step of a processable body: its terrain manifold is
        acquired and cleared, its shape is flattened into leaf work items,
        every leaf is processed, and a manifold left without points is
        released. */
    method ProcessBody(id: nat, provider: Provider, l: real)
      requires Valid() && id in bodies && |slots| < UMAX32 && ProviderOk(provider, |batches|)
      requires Processable(bodies[id])
      modifies this
      ensures Valid() && |batches| >= old(|batches|)
      ensures bodies.Keys == old(bodies).Keys && order == old(order) && frame == old(frame)
      ensures bodies == old(bodies)[id := old(bodies[id]).(handle := bodies[id].handle)]
      ensures TerrainResult(id, bodies, slots, manifolds, BodyPoints(id, old(bodies[id]), provider, frame))
      ensures BodyReadied(pairs, batches, id, old(bodies[id]), provider, frame)
      ensures PairsExtend(old(pairs), pairs) && TreesExtend(old(batches), batches)
      ensures old(bodies[id].handle) != UMAX32 && bodies[id].handle != UMAX32 ==>
                bodies[id].handle == old(bodies[id].handle)
      ensures OthersKept(old(slots), old(manifolds), slots, manifolds, id)
      ensures |slots| <= |old(slots)| + 1
    {
      var b := bodies[id];
      var m := ClearedTerrainManifold(id);
      ghost var s1 := slots;
      var items := CompoundFlatten.Flatten(b.shape, b.trans);
      ghost var m2 := manifolds;
      ProcessLeaves(id, m, items, provider, l);
      OthersKeptPlanet(bodies, s1, m2, manifolds, m, id);
      OthersKeptTrans(old(slots), old(manifolds), s1, m2, s1, manifolds, id);
      ghost var m3 := manifolds;
      FinishBody(id, m);
      OthersKeptTrans(old(slots), old(manifolds), s1, m3, slots, manifolds, id);
    }

    /** `ot_terrain_collision_step`: every collision object of the world, in
        the world's order, goes through the body step with the current
        frame; then the frame counter advances. Afterwards every processed
        body holds a terrain manifold exactly when its leaves produced
        points, and that manifold holds exactly those points. */
    method OtTerrainCollisionStep(provider: Provider, l: real)
      requires Valid() && |slots| + |order| < UMAX32 && ProviderOk(provider, |batches|)
      modifies this
      ensures Valid() && frame == NextFrame(old(frame))
      ensures bodies.Keys == old(bodies).Keys && order == old(order)
      ensures forall x :: x in bodies ==> bodies[x] == old(bodies[x]).(handle := bodies[x].handle)
      ensures forall x :: x in bodies && Processable(bodies[x]) ==>
                TerrainResult(x, bodies, slots, manifolds, BodyPoints(x, old(bodies[x]), provider, old(frame)))
      ensures SkippedKept(old(bodies), old(slots), old(manifolds), bodies, slots, manifolds)
      ensures forall x :: x in old(bodies) && Processable(old(bodies[x])) ==>
                BodyReadied(pairs, batches, x, old(bodies[x]), provider, old(frame))
    {
      SkippedKeptStart(bodies, slots, manifolds);
      var i := 0;
      while i < |order|
        invariant 0 <= i <= |order|
        invariant Valid() && ProviderOk(provider, |batches|)
        invariant |slots| <= |old(slots)| + i
        invariant bodies.Keys == old(bodies).Keys && order == old(order) && frame == old(frame)
        invariant forall x :: x in bodies ==> bodies[x] == old(bodies[x]).(handle := bodies[x].handle)
        invariant PendingFrom(order, i, old(bodies), bodies)
        invariant DoneUpTo(order, i, old(bodies), bodies, slots, manifolds, provider, frame)
        invariant SkippedKept(old(bodies), old(slots), old(manifolds), bodies, slots, manifolds)
        invariant ReadiedUpTo(order, i, old(bodies), pairs, batches, provider, frame)
      {
        StepOrderEntry(i, provider, l, old(bodies), old(slots), old(manifolds));
        i := i + 1;
      }
      DoneAll(order, old(bodies), bodies, slots, manifolds, provider, frame);
      ReadiedAll(order, old(bodies), pairs, batches, provider, frame);
      frame := NextFrame(frame);
    }

    /** The loop body of `OtTerrainCollisionStep`, on the `i`th body of the
        world's order; `b0` is the body table when the loop started. */
    method StepOrderEntry(i: nat, provider: Provider, l: real, ghost b0: map<nat, Body>,
                          ghost s0: seq<Option<nat>>, ghost m0: map<nat, Manifold>)
      requires i < |order| && Valid() && ProviderOk(provider, |batches|) && |slots| < UMAX32
      requires bodies.Keys == b0.Keys
      requires SkippedKept(b0, s0, m0, bodies, slots, manifolds)
      requires ReadiedUpTo(order, i, b0, pairs, batches, provider, frame)
      requires forall x :: x in bodies ==> bodies[x] == b0[x].(handle := bodies[x].handle)
      requires PendingFrom(order, i, b0, bodies)
      requires DoneUpTo(order, i, b0, bodies, slots, manifolds, provider, frame)
      modifies this
      ensures Valid() && ProviderOk(provider, |batches|)
      ensures |slots| <= |old(slots)| + 1
      ensures bodies.Keys == b0.Keys && order == old(order) && frame == old(frame)
      ensures forall x :: x in bodies ==> bodies[x] == b0[x].(handle := bodies[x].handle)
      ensures PendingFrom(order, i + 1, b0, bodies)
      ensures DoneUpTo(order, i + 1, b0, bodies, slots, manifolds, provider, frame)
      ensures SkippedKept(b0, s0, m0, bodies, slots, manifolds)
      ensures ReadiedUpTo(order, i + 1, b0, pairs, batches, provider, frame)
    {
      var id := order[i];
      ghost var n1 := |batches|;
      assert id in bodies;
      TerrainStepBody(id, provider, l);
      ProviderOkMono(provider, n1, |batches|);
      EntryStepped(order, i, b0, s0, m0, old(bodies), old(slots), old(manifolds), old(pairs), old(batches),
                   bodies, slots, manifolds, pairs, batches, provider, frame);
    }

    /** `process_tree_collisions`: one sweep over the pair table. An
        inactive pair's tree has its spring state cleared and the pair is
        deleted; a pair not reused this frame has its manifold released and
        is deleted; every other pair is marked unused for the next frame,
        its manifold is refreshed by the narrow phase and the flex step
        decides the pair's new context and manifold points, and what the
        deflection routine writes to the tree and to the body's velocity is
        seen by the pairs after it. The bodies' impact states start as
        `impactOf` and are returned as the sweep leaves them. */
    method ProcessTreeCollisions(narrow: NarrowPhase, impactOf: nat -> Impact, deflect: Deflector)
      returns (impacts: nat -> Impact)
      requires Valid()
      modifies this
      ensures Valid()
      ensures AllReady(old(pairs), old(batches), old(manifolds)) && DistinctManifolds(old(pairs))
      ensures SweepState(pairs, manifolds, batches, impacts) ==
              Sweep(old(pairs), |old(pairs)|, old(batches), old(manifolds), impactOf, narrow, deflect)
      ensures bodies == old(bodies) && order == old(order) && slots == old(slots)
      ensures base == old(base) && frame == old(frame) && nextManifold == old(nextManifold)
      ensures PlanetUntouched(old(manifolds), manifolds)
      ensures forall k :: 0 <= k < |pairs| ==> pairs[k].active && !pairs[k].reused
    {
      SweptAwaitReuse(pairs, batches, manifolds, impactOf, narrow, deflect);
      SweptValid(bodies, order, slots, nextManifold, pairs, batches, base, manifolds, impactOf, narrow, deflect);
      var kept, ms, bs, vs := SweepPairs(pairs, batches, manifolds, impactOf, narrow, deflect);
      pairs, manifolds, batches, impacts := kept, ms, bs, vs;
    }

    /** `internalSingleStepSimulation`, restricted to the terrain phase:
        the terrain collision step, then the sweep of the tree pairs. The
        terrain contacts each body gets this frame survive the sweep, and
        every pair left waits to be reused next frame. */
    method InternalSingleStep(provider: Provider, l: real, narrow: NarrowPhase, impactOf: nat -> Impact,
                              deflect: Deflector)
      returns (impacts: nat -> Impact)
      requires Valid() && |slots| + |order| < UMAX32 && ProviderOk(provider, |batches|)
      modifies this
      ensures Valid() && frame == NextFrame(old(frame))
      ensures bodies.Keys == old(bodies).Keys && order == old(order)
      ensures forall x :: x in bodies ==> bodies[x] == old(bodies[x]).(handle := bodies[x].handle)
      ensures forall x :: x in bodies && Processable(bodies[x]) ==>
                TerrainResult(x, bodies, slots, manifolds, BodyPoints(x, old(bodies[x]), provider, old(frame)))
      ensures SkippedKept(old(bodies), old(slots), old(manifolds), bodies, slots, manifolds)
      ensures forall k :: 0 <= k < |pairs| ==> pairs[k].active && !pairs[k].reused
      ensures forall x :: impacts(x) == impactOf(x).(speed := impacts(x).speed, negVelDir := impacts(x).negVelDir)
    {
      OtTerrainCollisionStep(provider, l);
      ghost var m1 := manifolds;
      ghost var p1, b1 := pairs, batches;
      impacts := ProcessTreeCollisions(narrow, impactOf, deflect);
      forall x ensures impacts(x) == impactOf(x).(speed := impacts(x).speed, negVelDir := impacts(x).negVelDir) {
        SweptImpactsKeepMass(p1, |p1|, b1, m1, impactOf, narrow, deflect, x);
      }
      forall x | x in bodies && Processable(bodies[x])
        ensures TerrainResult(x, bodies, slots, manifolds, BodyPoints(x, old(bodies[x]), provider, old(frame)))
      {
        TerrainResultPlanet(x, bodies, slots, m1, manifolds, BodyPoints(x, old(bodies[x]), provider, old(frame)));
      }
      SkippedKeptPlanet(old(bodies), old(slots), old(manifolds), bodies, slots, m1, manifolds);
    }
  }
}
