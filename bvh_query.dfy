/** Volume queries over the broadphase's two bounding-volume trees (dynamic
    and static): an explicit-stack traversal that prunes every subtree whose
    volume fails the test and reports the client object of each accepted
    leaf that carries one. The sphere query accepts every such object; the
    frustum query additionally tests each object's own extent against every
    plane. */
module BvhQuery {
  import opened PhysicsCfg

  /** Axis-aligned box, by centre and half extents. */
  datatype Volume = Volume(center: Vec3, extents: Vec3)

  /** A tree node: a leaf optionally carrying a proxy of a client object, or
      an internal node with its two children `childs[0]`, `childs[1]`. */
  datatype Node =
    | Leaf(volume: Volume, data: Option<nat>)
    | Internal(volume: Volume, child0: Node, child1: Node)

  /** A frustum plane: inward normal and offset. */
  datatype Plane = Plane(n: Vec3, w: real)

  function NodeSize(n: Node): nat {
    match n
    case Leaf(_, _) => 1
    case Internal(_, c0, c1) => 1 + NodeSize(c0) + NodeSize(c1)
  }

  function StackSize(st: seq<Node>): nat {
    if st == [] then 0 else StackSize(st[..|st| - 1]) + NodeSize(st[|st| - 1])
  }

  /** The objects a traversal of `n` reports when `accept` is the volume test
      and `keep` the per-object test. Children are pushed 0 then 1, so the
      subtree of child 1 is reported first. */
  function Reported(n: Node, accept: Volume -> bool, keep: nat -> bool): seq<nat> {
    if !accept(n.volume) then []
    else
      match n
      case Leaf(_, d) => if d.Some? && keep(d.value) then [d.value] else []
      case Internal(_, c0, c1) => Reported(c1, accept, keep) + Reported(c0, accept, keep)
  }

  /** The objects still to be reported from a stack: the top (last) first. */
  function StackReported(st: seq<Node>, accept: Volume -> bool, keep: nat -> bool): seq<nat> {
    if st == [] then []
    else Reported(st[|st| - 1], accept, keep) + StackReported(st[..|st| - 1], accept, keep)
  }

  /** The initial stack: the dynamic tree's root, then the static tree's,
      each only when that tree is non-empty. */
  function Roots(dynRoot: Option<Node>, statRoot: Option<Node>): (st: seq<Node>)
    ensures |st| == (if dynRoot.Some? then 1 else 0) + (if statRoot.Some? then 1 else 0)
    ensures dynRoot.Some? ==> st[0] == dynRoot.value
    ensures statRoot.Some? ==> st[|st| - 1] == statRoot.value
  {
    (if dynRoot.Some? then [dynRoot.value] else []) + (if statRoot.Some? then [statRoot.value] else [])
  }

  /** Which branch to take at an internal node. */
  datatype Dir = Zero | One

  /** `x` sits at the leaf reached from `n` along `path`, every node on the
      way (the leaf included) passes the volume test and `x` passes the
      object test. */
  predicate ReachedBy(n: Node, path: seq<Dir>, x: nat, accept: Volume -> bool, keep: nat -> bool)
    decreases |path|
  {
    accept(n.volume) &&
    if path == [] then n.Leaf? && n.data == Some(x) && keep(x)
    else n.Internal? &&
         ReachedBy(if path[0] == Zero then n.child0 else n.child1, path[1..], x, accept, keep)
  }

  /** The traversal reports exactly the objects at leaves whose whole
      ancestor chain passes the volume test and that pass the object test. */
  lemma ReportedIffReached(n: Node, x: nat, accept: Volume -> bool, keep: nat -> bool)
    ensures x in Reported(n, accept, keep) <==> exists p :: ReachedBy(n, p, x, accept, keep)
  {
    if x in Reported(n, accept, keep) {
      ReportedIsReached(n, x, accept, keep);
    }
    if exists p :: ReachedBy(n, p, x, accept, keep) {
      var p :| ReachedBy(n, p, x, accept, keep);
      ReachedIsReported(n, p, x, accept, keep);
    }
  }

  lemma {:induction false} ReportedIsReached(n: Node, x: nat, accept: Volume -> bool, keep: nat -> bool)
    requires x in Reported(n, accept, keep)
    ensures exists p :: ReachedBy(n, p, x, accept, keep)
  {
    match n
    case Leaf(_, _) =>
      assert ReachedBy(n, [], x, accept, keep);
    case Internal(_, c0, c1) =>
      if x in Reported(c1, accept, keep) {
        ReportedIsReached(c1, x, accept, keep);
        var p :| ReachedBy(c1, p, x, accept, keep);
        assert ([One] + p)[1..] == p;
        assert ReachedBy(n, [One] + p, x, accept, keep);
      } else {
        ReportedIsReached(c0, x, accept, keep);
        var p :| ReachedBy(c0, p, x, accept, keep);
        assert ([Zero] + p)[1..] == p;
        assert ReachedBy(n, [Zero] + p, x, accept, keep);
      }
  }

  lemma {:induction false} ReachedIsReported(n: Node, p: seq<Dir>, x: nat, accept: Volume -> bool, keep: nat -> bool)
    requires ReachedBy(n, p, x, accept, keep)
    ensures x in Reported(n, accept, keep)
    decreases |p|
  {
    if p != [] {
      var c := if p[0] == Zero then n.child0 else n.child1;
      ReachedIsReported(c, p[1..], x, accept, keep);
    }
  }

  /** A subtree whose root fails the volume test contributes nothing. */
  lemma PrunedSubtreeReportsNothing(n: Node, accept: Volume -> bool, keep: nat -> bool)
    requires !accept(n.volume)
    ensures Reported(n, accept, keep) == []
  {
  }

  lemma {:induction false} StackReportedMembers(st: seq<Node>, x: nat, accept: Volume -> bool, keep: nat -> bool)
    ensures x in StackReported(st, accept, keep) <==>
            exists i :: 0 <= i < |st| && x in Reported(st[i], accept, keep)
    decreases |st|
  {
    if st != [] {
      var m := |st| - 1;
      var rest := st[..m];
      StackReportedMembers(rest, x, accept, keep);
      assert StackReported(st, accept, keep) == Reported(st[m], accept, keep) + StackReported(rest, accept, keep);
      assert forall i :: 0 <= i < m ==> rest[i] == st[i];
      if x in StackReported(st, accept, keep) && x !in Reported(st[m], accept, keep) {
        var i :| 0 <= i < m && x in Reported(rest[i], accept, keep);
        assert x in Reported(st[i], accept, keep);
      }
      if exists i :: 0 <= i < |st| && x in Reported(st[i], accept, keep) {
        var i :| 0 <= i < |st| && x in Reported(st[i], accept, keep);
        if i < m {
          assert x in Reported(rest[i], accept, keep);
        }
      }
    }
  }

  /** A looser object test reports at least every object a stricter one does. */
  lemma {:induction false} ReportedMonotone(n: Node, accept: Volume -> bool, k1: nat -> bool, k2: nat -> bool)
    requires forall o :: k1(o) ==> k2(o)
    ensures forall x :: x in Reported(n, accept, k1) ==> x in Reported(n, accept, k2)
  {
    match n
    case Leaf(_, _) =>
    case Internal(_, c0, c1) =>
      ReportedMonotone(c0, accept, k1, k2);
      ReportedMonotone(c1, accept, k1, k2);
  }

  lemma {:induction false} StackReportedMonotone(st: seq<Node>, accept: Volume -> bool, k1: nat -> bool, k2: nat -> bool)
    requires forall o :: k1(o) ==> k2(o)
    ensures forall x :: x in StackReported(st, accept, k1) ==> x in StackReported(st, accept, k2)
    decreases |st|
  {
    if st != [] {
      ReportedMonotone(st[|st| - 1], accept, k1, k2);
      StackReportedMonotone(st[..|st| - 1], accept, k1, k2);
    }
  }

  /** One step of the traversal: popping an accepted internal node and
      pushing its two children leaves the still-to-report objects unchanged
      and shrinks the stack's size. */
  lemma {:induction false} PushChildren(rest: seq<Node>, cur: Node, accept: Volume -> bool, keep: nat -> bool)
    requires cur.Internal? && accept(cur.volume)
    ensures StackReported(rest + [cur.child0] + [cur.child1], accept, keep) ==
            StackReported(rest + [cur], accept, keep)
    ensures StackSize(rest + [cur.child0] + [cur.child1]) < StackSize(rest + [cur])
  {
    var s0 := rest + [cur.child0];
    var s1 := s0 + [cur.child1];
    assert s1[..|s1| - 1] == s0;
    assert s0[..|s0| - 1] == rest;
    assert (rest + [cur])[..|rest|] == rest;
  }

  /** What an accepted leaf reports. */
  lemma AcceptedLeaf(cur: Node, accept: Volume -> bool, keep: nat -> bool)
    requires cur.Leaf? && accept(cur.volume)
    ensures Reported(cur, accept, keep) ==
            if cur.data.Some? && keep(cur.data.value) then [cur.data.value] else []
  {
  }

  /** Popping the top node. */
  lemma PopTop(st: seq<Node>, accept: Volume -> bool, keep: nat -> bool)
    requires st != []
    ensures StackReported(st, accept, keep) ==
            Reported(st[|st| - 1], accept, keep) + StackReported(st[..|st| - 1], accept, keep)
    ensures StackSize(st[..|st| - 1]) < StackSize(st)
  {
  }

  /** One iteration of a query loop on the value of its stack: the top is
      popped and, when it passes the volume test, reported (a leaf) or
      replaced by its children (an internal node). `done` is what the loop
      has reported so far. */
  lemma VisitTop(done: seq<nat>, st: seq<Node>, accept: Volume -> bool, keep: nat -> bool)
    requires st != []
    ensures var cur := st[|st| - 1];
            var rest := st[..|st| - 1];
            StackSize(rest) < StackSize(st) &&
            (!accept(cur.volume) ==> done + StackReported(st, accept, keep) == done + StackReported(rest, accept, keep)) &&
            (accept(cur.volume) && cur.Leaf? ==>
               done + StackReported(st, accept, keep) ==
               (if cur.data.Some? && keep(cur.data.value) then done + [cur.data.value] else done) +
               StackReported(rest, accept, keep)) &&
            (accept(cur.volume) && cur.Internal? ==>
               StackReported(rest + [cur.child0] + [cur.child1], accept, keep) == StackReported(st, accept, keep) &&
               StackSize(rest + [cur.child0] + [cur.child1]) < StackSize(st))
  {
    var cur := st[|st| - 1];
    var rest := st[..|st| - 1];
    PopTop(st, accept, keep);
    if accept(cur.volume) && cur.Internal? {
      assert st == rest + [cur];
      PushChildren(rest, cur, accept, keep);
    }
    if accept(cur.volume) && cur.Leaf? && cur.data.Some? && keep(cur.data.value) {
      assert done + ([cur.data.value] + StackReported(rest, accept, keep)) ==
             done + [cur.data.value] + StackReported(rest, accept, keep);
    }
  }

  /** The volume test of the sphere query, fixed for one call. */
  function SphereTest(pos: Vec3, rad: real, intersects: (Vec3, real, Volume) -> bool): Volume -> bool {
    v => intersects(pos, rad, v)
  }

  /** The sphere query keeps every object of an accepted leaf. */
  function KeepAll(): nat -> bool {
    (o: nat) => true
  }

  /** `query_volume_sphere`. The sphere-box intersection routine is external
      and is passed as `intersects`. The query appends to the caller's vector,
      whose contents on entry are `prior`. */
  method QueryVolumeSphere(dynRoot: Option<Node>, statRoot: Option<Node>, pos: Vec3, rad: real,
                           intersects: (Vec3, real, Volume) -> bool, prior: seq<nat>)
    returns (result: seq<nat>)
    ensures result == prior + StackReported(Roots(dynRoot, statRoot), SphereTest(pos, rad, intersects), KeepAll())
  {
    var accept := SphereTest(pos, rad, intersects);
    var keep := KeepAll();
    var stack := Roots(dynRoot, statRoot);
    result := prior;
    while |stack| > 0
      invariant result + StackReported(stack, accept, keep) ==
                prior + StackReported(Roots(dynRoot, statRoot), accept, keep)
      decreases StackSize(stack)
    {
      var cur := stack[|stack| - 1];
      VisitTop(result, stack, accept, keep);
      stack := stack[..|stack| - 1];
      if intersects(pos, rad, cur.volume) {
        match cur {
          case Leaf(_, d) =>
            if d.Some? {
              result := result + [d.value];
            }
          case Internal(_, c0, c1) =>
            stack := stack + [c0] + [c1];
        }
      }
    }
  }

  /** The part of the object's extent along `n` toward a plane: half the
      width of the object's box along the plane normal. */
  type HalfWidth = (nat, Vec3) -> NonNegReal

  /** The per-plane test of an object: `mp` is the signed distance of the
      object's centre (relative to `pos`), `np` its half width along the
      normal. Partial inclusion rejects only objects wholly outside; full
      inclusion rejects any object not wholly inside. */
  predicate PlaneKeeps(rel: Vec3, np: real, pl: Plane, includePartial: bool) {
    var mp := pl.n.Dot(rel) + pl.w;
    !((if includePartial then mp + np else mp - np) < 0.0)
  }

  predicate PassesAll(obj: nat, pos: Vec3, planes: seq<Plane>, includePartial: bool,
                      center: nat -> Vec3, halfWidth: HalfWidth)
  {
    forall p :: 0 <= p < |planes| ==>
      PlaneKeeps(center(obj).Sub(pos), halfWidth(obj, planes[p].n), planes[p], includePartial)
  }

  /** The object test of the frustum query, fixed for one call. */
  function FrustumKeep(pos: Vec3, planes: seq<Plane>, includePartial: bool,
                       center: nat -> Vec3, halfWidth: HalfWidth): nat -> bool
  {
    (o: nat) => PassesAll(o, pos, planes, includePartial, center, halfWidth)
  }

  /** The volume test of the frustum query: nodes are always tested for
      partial inclusion. */
  function FrustumTest(pos: Vec3, planes: seq<Plane>,
                       intersects: (Volume, Vec3, seq<Plane>, bool) -> bool): Volume -> bool
  {
    v => intersects(v, pos, planes, true)
  }

  /** The plane loop of one leaf object, leaving at the first rejecting plane. */
  method PassesPlanes(obj: nat, pos: Vec3, planes: seq<Plane>, includePartial: bool,
                      center: nat -> Vec3, halfWidth: HalfWidth)
    returns (passes: bool)
    ensures passes <==> PassesAll(obj, pos, planes, includePartial, center, halfWidth)
  {
    var rel := center(obj).Sub(pos);
    passes := true;
    var p := 0;
    while p < |planes|
      invariant 0 <= p <= |planes|
      invariant passes
      invariant forall q :: 0 <= q < p ==> PlaneKeeps(rel, halfWidth(obj, planes[q].n), planes[q], includePartial)
    {
      var n := planes[p].n;
      var np := halfWidth(obj, n);
      var mp := n.Dot(rel) + planes[p].w;
      if (if includePartial then mp + np else mp - np) < 0.0 {
        passes := false;
        break;
      }
      p := p + 1;
    }
  }

  /** `query_volume_frustum`. The frustum-box intersection routine, the
      objects' world positions and their extents along a direction are
      passed in. Like the sphere query it appends to the caller's vector,
      whose contents on entry are `prior`. */
  method QueryVolumeFrustum(dynRoot: Option<Node>, statRoot: Option<Node>, pos: Vec3,
                            planes: seq<Plane>, includePartial: bool,
                            intersects: (Volume, Vec3, seq<Plane>, bool) -> bool,
                            center: nat -> Vec3, halfWidth: HalfWidth, prior: seq<nat>)
    returns (result: seq<nat>)
    ensures result == prior + StackReported(Roots(dynRoot, statRoot), FrustumTest(pos, planes, intersects),
                                            FrustumKeep(pos, planes, includePartial, center, halfWidth))
  {
    var accept := FrustumTest(pos, planes, intersects);
    var keep := FrustumKeep(pos, planes, includePartial, center, halfWidth);
    var stack := Roots(dynRoot, statRoot);
    result := prior;
    while |stack| > 0
      invariant result + StackReported(stack, accept, keep) ==
                prior + StackReported(Roots(dynRoot, statRoot), accept, keep)
      decreases StackSize(stack)
    {
      var cur := stack[|stack| - 1];
      VisitTop(result, stack, accept, keep);
      stack := stack[..|stack| - 1];
      if intersects(cur.volume, pos, planes, true) {
        match cur {
          case Leaf(_, d) =>
            if d.Some? {
              var passes := PassesPlanes(d.value, pos, planes, includePartial, center, halfWidth);
              if passes {
                result := result + [d.value];
              }
            }
          case Internal(_, c0, c1) =>
            stack := stack + [c0] + [c1];
        }
      }
    }
  }

  /** An object wholly inside passes the partial test too. */
  lemma FullImpliesPartial(obj: nat, pos: Vec3, planes: seq<Plane>, center: nat -> Vec3, halfWidth: HalfWidth)
    ensures PassesAll(obj, pos, planes, false, center, halfWidth) ==>
            PassesAll(obj, pos, planes, true, center, halfWidth)
  {
    if PassesAll(obj, pos, planes, false, center, halfWidth) {
      forall p | 0 <= p < |planes|
        ensures PlaneKeeps(center(obj).Sub(pos), halfWidth(obj, planes[p].n), planes[p], true)
      {
        assert PlaneKeeps(center(obj).Sub(pos), halfWidth(obj, planes[p].n), planes[p], false);
      }
    }
  }

  /** Hence the full-inclusion query never reports more than the partial one. */
  lemma FullQueryWithinPartial(dynRoot: Option<Node>, statRoot: Option<Node>, pos: Vec3,
                               planes: seq<Plane>, intersects: (Volume, Vec3, seq<Plane>, bool) -> bool,
                               center: nat -> Vec3, halfWidth: HalfWidth)
    ensures forall x ::
      x in StackReported(Roots(dynRoot, statRoot), FrustumTest(pos, planes, intersects),
                         FrustumKeep(pos, planes, false, center, halfWidth)) ==>
      x in StackReported(Roots(dynRoot, statRoot), FrustumTest(pos, planes, intersects),
                         FrustumKeep(pos, planes, true, center, halfWidth))
  {
    var k1 := FrustumKeep(pos, planes, false, center, halfWidth);
    var k2 := FrustumKeep(pos, planes, true, center, halfWidth);
    forall o ensures k1(o) ==> k2(o) {
      FullImpliesPartial(o, pos, planes, center, halfWidth);
    }
    StackReportedMonotone(Roots(dynRoot, statRoot), FrustumTest(pos, planes, intersects), k1, k2);
  }

  /** After the sphere query the caller's vector holds an object exactly
      when it was there before, or it sits at a leaf of one of the two trees
      whose every ancestor box meets the sphere. */
  lemma SphereQueryCharacterised(dynRoot: Option<Node>, statRoot: Option<Node>, pos: Vec3, rad: real,
                                 intersects: (Vec3, real, Volume) -> bool, prior: seq<nat>, x: nat)
    ensures x in prior + StackReported(Roots(dynRoot, statRoot), SphereTest(pos, rad, intersects), KeepAll()) <==>
            x in prior ||
            exists i, p :: 0 <= i < |Roots(dynRoot, statRoot)| &&
                           ReachedBy(Roots(dynRoot, statRoot)[i], p, x, SphereTest(pos, rad, intersects), KeepAll())
  {
    var st := Roots(dynRoot, statRoot);
    var accept := SphereTest(pos, rad, intersects);
    var keep := KeepAll();
    StackReportedMembers(st, x, accept, keep);
    if x in StackReported(st, accept, keep) {
      var i :| 0 <= i < |st| && x in Reported(st[i], accept, keep);
      ReportedIsReached(st[i], x, accept, keep);
      var p :| ReachedBy(st[i], p, x, accept, keep);
    }
    if exists i, p :: 0 <= i < |st| && ReachedBy(st[i], p, x, accept, keep) {
      var i, p :| 0 <= i < |st| && ReachedBy(st[i], p, x, accept, keep);
      ReachedIsReported(st[i], p, x, accept, keep);
    }
  }
}
