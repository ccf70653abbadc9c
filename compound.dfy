/** Flattening of a (possibly nested) compound collision shape into leaf work
    items with an explicit stack, as the terrain step does for each body. */
module CompoundFlatten {

  /** Rigid transforms, kept symbolic: `Mul(parent, child)` is `parent * child`. */
  datatype Transform = Identity | Placed(id: nat) | Mul(parent: Transform, child: Transform)

  function Compose(parent: Transform, child: Transform): Transform {
    Mul(parent, child)
  }

  /** The shape kinds the terrain step distinguishes. `Convex` stands for every
      other convex primitive (box, cylinder, cone, hull); `Concave` for the rest
      (meshes, planes). */
  datatype Shape =
    | Sphere(radius: real)
    | Capsule(radius: real, halfHeight: real)
    | Convex(id: nat)
    | Concave(id: nat)
    | Compound(children: seq<Child>)

  datatype Child = Child(local: Transform, shape: Shape)

  /** A shape placed in the world: an entry of the processing stack and of
      the resulting work list. */
  datatype Entry = Entry(shape: Shape, trans: Transform)

  function Size(s: Shape): (n: nat)
    ensures n >= 1
    decreases s
  {
    match s
    case Compound(ch) => 1 + ChildrenSize(ch, s)
    case _ => 1
  }

  function ChildrenSize(ch: seq<Child>, ghost parent: Shape): nat
    requires forall c :: c in ch ==> c.shape < parent
    decreases parent, |ch|
  {
    if ch == [] then 0 else ChildrenSize(ch[..|ch| - 1], parent) + Size(ch[|ch| - 1].shape)
  }

  function StackSize(st: seq<Entry>): nat {
    if st == [] then 0 else StackSize(st[..|st| - 1]) + Size(st[|st| - 1].shape)
  }

  /** The entries pushed for the children of a compound placed at `t`, in
      child order. */
  function ChildEntries(ch: seq<Child>, t: Transform): (r: seq<Entry>)
    ensures |r| == |ch|
    ensures forall j :: 0 <= j < |ch| ==> r[j] == Entry(ch[j].shape, Compose(t, ch[j].local))
  {
    seq(|ch|, j requires 0 <= j < |ch| => Entry(ch[j].shape, Compose(t, ch[j].local)))
  }

  lemma {:induction false} ChildEntriesSize(ch: seq<Child>, t: Transform, parent: Shape)
    requires forall c :: c in ch ==> c.shape < parent
    ensures StackSize(ChildEntries(ch, t)) == ChildrenSize(ch, parent)
    decreases |ch|
  {
    if ch != [] {
      var n := |ch| - 1;
      assert ChildEntries(ch, t)[..n] == ChildEntries(ch[..n], t);
      ChildEntriesSize(ch[..n], t, parent);
    }
  }

  /** The work items produced for one entry: the entry itself when it is not
      a compound, otherwise the items of its children taken from a stack on
      which they were pushed in order, so the last child comes first. */
  function Leaves(e: Entry): seq<Entry>
    decreases Size(e.shape), 0
  {
    match e.shape
    case Compound(ch) =>
      ChildEntriesSize(ch, e.trans, e.shape);
      StackLeaves(ChildEntries(ch, e.trans))
    case _ => [e]
  }

  /** The work items a stack still yields: the top (last) entry's first. */
  function StackLeaves(st: seq<Entry>): seq<Entry>
    decreases StackSize(st), |st| + 1
  {
    if st == [] then [] else Leaves(st[|st| - 1]) + StackLeaves(st[..|st| - 1])
  }

  lemma {:induction false} StackLeavesAppend(a: seq<Entry>, b: seq<Entry>)
    ensures StackLeaves(a + b) == StackLeaves(b) + StackLeaves(a)
    ensures StackSize(a + b) == StackSize(a) + StackSize(b)
    decreases |b|
  {
    if b == [] {
      assert a + b == a;
    } else {
      var n := |b| - 1;
      assert (a + b)[..|a + b| - 1] == a + b[..n];
      assert (a + b)[|a + b| - 1] == b[n];
      StackLeavesAppend(a, b[..n]);
    }
  }

  /** Number of non-compound shapes in a shape tree, counted directly. */
  function LeafCount(s: Shape): nat
    decreases s
  {
    match s
    case Compound(ch) => ChildrenLeafCount(ch, s)
    case _ => 1
  }

  function ChildrenLeafCount(ch: seq<Child>, ghost parent: Shape): nat
    requires forall c :: c in ch ==> c.shape < parent
    decreases parent, |ch|
  {
    if ch == [] then 0 else ChildrenLeafCount(ch[..|ch| - 1], parent) + LeafCount(ch[|ch| - 1].shape)
  }

  function StackLeafCount(st: seq<Entry>): nat {
    if st == [] then 0 else StackLeafCount(st[..|st| - 1]) + LeafCount(st[|st| - 1].shape)
  }

  /** Flattening yields exactly one item per non-compound leaf of the shape
      tree, and no item is a compound. */
  lemma {:induction false} LeavesCountAndKind(e: Entry)
    ensures |Leaves(e)| == LeafCount(e.shape)
    ensures forall k :: 0 <= k < |Leaves(e)| ==> !Leaves(e)[k].shape.Compound?
    decreases Size(e.shape), 0
  {
    match e.shape
    case Compound(ch) =>
      ChildEntriesSize(ch, e.trans, e.shape);
      StackLeavesCountAndKind(ChildEntries(ch, e.trans));
      ChildEntriesLeafCount(ch, e.trans, e.shape);
    case _ =>
  }

  lemma {:induction false} StackLeavesCountAndKind(st: seq<Entry>)
    ensures |StackLeaves(st)| == StackLeafCount(st)
    ensures forall k :: 0 <= k < |StackLeaves(st)| ==> !StackLeaves(st)[k].shape.Compound?
    decreases StackSize(st), |st| + 1
  {
    if st != [] {
      var n := |st| - 1;
      LeavesCountAndKind(st[n]);
      StackLeavesCountAndKind(st[..n]);
      var l: seq<Entry>, r: seq<Entry> := Leaves(st[n]), StackLeaves(st[..n]);
      assert StackLeaves(st) == l + r;
      forall k | 0 <= k < |l + r| ensures !(l + r)[k].shape.Compound? {
        if k < |l| { assert (l + r)[k] == l[k]; } else { assert (l + r)[k] == r[k - |l|]; }
      }
    }
  }

  lemma {:induction false} ChildEntriesLeafCount(ch: seq<Child>, t: Transform, parent: Shape)
    requires forall c :: c in ch ==> c.shape < parent
    ensures StackLeafCount(ChildEntries(ch, t)) == ChildrenLeafCount(ch, parent)
    decreases |ch|
  {
    if ch != [] {
      var n := |ch| - 1;
      assert ChildEntries(ch, t)[..n] == ChildEntries(ch[..n], t);
      ChildEntriesLeafCount(ch[..n], t, parent);
    }
  }

  /** A shape that is not a compound yields exactly itself, untransformed. */
  lemma SingleShapeOneItem(s: Shape, t: Transform)
    requires !s.Compound?
    ensures Leaves(Entry(s, t)) == [Entry(s, t)]
  {
  }

  /** The items of a compound's child carry the transform composed along the
      path: every item of child `j` of a compound placed at `t` is an item of
      the compound, and child `j` is itself placed at `t * local_j`. */
  lemma {:induction false} ChildItemsAreItems(ch: seq<Child>, t: Transform, j: nat)
    requires j < |ch|
    ensures forall x :: x in Leaves(Entry(ch[j].shape, Compose(t, ch[j].local))) ==>
                        x in Leaves(Entry(Compound(ch), t))
  {
    var s := Compound(ch);
    var es := ChildEntries(ch, t);
    ChildEntriesSize(ch, t, s);
    StackLeavesContains(es, j);
  }

  lemma {:induction false} StackLeavesContains(st: seq<Entry>, j: nat)
    requires j < |st|
    ensures forall x :: x in Leaves(st[j]) ==> x in StackLeaves(st)
    decreases |st|
  {
    var n := |st| - 1;
    if j < n {
      StackLeavesContains(st[..n], j);
    }
  }

  /** The explicit-stack flattening. A compound root is pushed and the loop
      pops an entry, pushing the children of a compound (in child order, each
      at `parent * childTransform`) and emitting every other shape as a work
      item; a non-compound root is emitted directly. The loop ends with an
      empty stack. */
  method Flatten(root: Shape, world: Transform) returns (items: seq<Entry>)
    ensures items == Leaves(Entry(root, world))
  {
    items := [];
    if root.Compound? {
      var stack := [Entry(root, world)];
      while |stack| > 0
        invariant items + StackLeaves(stack) == Leaves(Entry(root, world))
        decreases StackSize(stack)
      {
        var curr := stack[|stack| - 1];
        stack := stack[..|stack| - 1];
        match curr.shape {
          case Compound(ch) =>
            ghost var rest := stack;
            ChildEntriesSize(ch, curr.trans, curr.shape);
            var j := 0;
            while j < |ch|
              invariant 0 <= j <= |ch|
              invariant stack == rest + ChildEntries(ch, curr.trans)[..j]
            {
              stack := stack + [Entry(ch[j].shape, Compose(curr.trans, ch[j].local))];
              j := j + 1;
            }
            assert ChildEntries(ch, curr.trans)[..j] == ChildEntries(ch, curr.trans);
            StackLeavesAppend(rest, ChildEntries(ch, curr.trans));
          case _ =>
            items := items + [curr];
        }
      }
    } else {
      items := [Entry(root, world)];
    }
  }
}
