# Outerra terrain and tree contact bridge for Bullet

This project models the part of Outerra's fork of the Bullet physics library
that joins Bullet's rigid-body world to Outerra's streamed planet and
vegetation. The model is written in Dafny, and the properties below are
proved about it by the Dafny verifier.

The modelled parts are:

- **Terrain collision step.** Each frame, the dynamics world gives every
  awake rigid body a terrain manifold, taken from a slot table. It flattens
  the body's (possibly nested) compound shape into leaf work items and asks
  the terrain provider for the contacts of each leaf. It also keeps a
  persistent table of (body, tree) pairs for the trees that the leaf's query
  reports as hit.
- **Tree batch cache.** Trees come in batches of 16, each with 16
  collision-proxy slots. A batch's proxies are built the first time it is
  referenced in a frame. Their shape links are repaired when the cache's
  storage moves.
- **Tree pair sweep.** After the terrain step, every (body, tree) pair is
  visited once:
  - pairs that are inactive or were not reused are dropped;
  - the others go through the narrow phase;
  - on first contact, the flex/break rule decides whether the tree yields
    (bending stress against yield stress) and so gets custom handling for a
    fixed duration.
- **Volume queries.** Sphere and frustum queries traverse the broadphase's
  dynamic and static bounding-volume trees with an explicit stack.
- **Façade rules.** The physics façade creates capsule shapes from half
  extents, updates object flags and broadphase filters, adds objects to the
  world and to external broadphase islands, looks up compound children, and
  registers sensor ghosts in its overlapping-pair callbacks.
- **Navigation probe.** A convex ghost is moved towards a target pose by a
  sweep test. The sweep stops at the closest hit that is not the probe
  itself, has contact response and is not steeper than the slope limit.

Module by module:

- `PhysicsCfg` (physics_cfg.dfy): plain data. Vectors, quaternions, trees,
  tree batches, the collision context, and the external broadphase island.
- `TreePairs` (tree_pairs.dfy): the pair record, its packed tree key
  `bid << 4 | tid`, pair equality, and the statistics counters.
- `TreeFlex` (tree_flex.dfy): the per-pair step of the sweep. This covers
  contact selection, the first-contact stress rule and custom handling.
- `CompoundFlatten` (compound.dfy): the explicit-stack flattening of
  compound shapes.
- `BvhQuery` (bvh_query.dfy): the two volume queries.
- `DynamicsWorld` (dynamics_world.dfy): the world class. It holds the
  bodies, the terrain slot table, the dispatcher's manifolds, the batch
  cache, the pair table and the frame counter. World methods change these
  fields, and the invariant `Valid()` ties them together. The sweep is
  specified by the fold `Sweep`, whose state after the first k pairs holds
  the pairs kept, the manifold table, the batch cache and every body's
  impact state.
- `Wrapper` (wrapper.dfy): the façade rules.
- `NavigationProbe` (navigation_probe.dfy): the probe and its sweep
  callback.

Bullet's collision algorithms are parameters of the model, because they are
not part of it. These are the terrain provider, the narrow phase, the body's
impact state, the deflection routine, the box–volume intersection routines
and the reported sweep hits. Floating-point values are modelled as `real`.

## Model

| member | source | states |
|---|---|---|
| PhysicsCfg.MakeTriangle | src/otbullet/physics_cfg.h:57-78 | the full triangle constructor stores every vertex, index, flag and offset given and sets friction, rolling friction and restitution to 1 |
| PhysicsCfg.ClearSpring | src/otbullet/discrete_dynamics_world.cpp:425-427 | clearing a tree's spring state zeroes both bytes, so the tree no longer reads as broken; identity, position and physical quantities are kept |
| PhysicsCfg.InfoOffset | src/otbullet/physics_cfg.h:113-117 | proxy slot i lies at offset i·size inside the raw buffer of 16 slots and fits in it |
| PhysicsCfg.DestroyBatch | src/otbullet/physics_cfg.h:118-120 | destroying a batch sets its tree count to 0 and changes nothing else |
| PhysicsCfg.DefaultContext | src/otbullet/physics_cfg.h:140-149 | a fresh collision context has no tree (all-ones identifier), zero force and duration, is not started and not custom-handled, with zero vectors |
| PhysicsCfg.DurationInverse | src/otbullet/physics_cfg.h:135-136 | the maximum collision duration is 0.15 s and the stored inverse is its exact reciprocal |
| PhysicsCfg.MakeBroadphaseEntry | src/otbullet/physics_cfg.h:196-201 | a broadphase entry keeps the object, mask, group and procedural flag given |
| PhysicsCfg.ExternalBroadphase.constructor | src/otbullet/physics_cfg.h:208-215 | a new island is empty, revision 0, not dirty, not used this frame, with 5000 handles and the given bounds |
| TreePairs.PackTreeId | src/otbullet/discrete_dynamics_world.cpp:387-394 | the packed key `bid << 4 \| tid` is a 32-bit value |
| TreePairs.UnpackIndex | src/otbullet/discrete_dynamics_world.cpp:528-533 | `key & 0xf` is always a valid slot index below 16 |
| TreePairs.PackRoundTrip | src/otbullet/discrete_dynamics_world.cpp:528-544 | unpacking a key packed from a batch handle below 2^28 and a slot below 16 gives both back |
| TreePairs.PackInjective | src/otbullet/discrete_dynamics_world.cpp:387-390 | for handles below 2^28, distinct (batch, slot) positions get distinct keys, and the converse |
| TreePairs.PackWrapsAbove28Bits | src/otbullet/discrete_dynamics_world.cpp:528-533 | a handle of 2^28 wraps onto handle 0, so two trees share a key |
| TreePairs.PackIndexSurvivesWrap | src/otbullet/discrete_dynamics_world.cpp:528-544 | the slot survives packing for every handle; the handle survives only below 2^28 |
| TreePairs.PairEqMeansSameTree | src/otbullet/discrete_dynamics_world.h:49-51 | two pairs compare equal exactly when they have the same body, batch and slot |
| TreePairs.DefaultPair | src/otbullet/discrete_dynamics_world.h:53-59 | the default pair has a null body, key 0, is not reused, has a null manifold, is active and holds a fresh context |
| TreePairs.KeyPair | src/otbullet/discrete_dynamics_world.cpp:387-390 | the search key is the default pair with the body and packed key set, and the key decodes back to the slot (and the batch below 2^28) |
| TreePairs.InitWith | src/otbullet/discrete_dynamics_world.h:67-71 | init_with sets the body, the packed key and the context's tree identifier (never the "no tree" value), and keeps every other field |
| TreePairs.InitWithMatchesKey | src/otbullet/discrete_dynamics_world.cpp:387-394 | a pair initialised for a tree compares equal to the key it was searched by |
| TreePairs.TreeKey | src/otbullet/discrete_dynamics_world.h:103-121 | a tree's hash key is its 16-bit identifier, which is never the all-ones 32-bit "no tree" value of a fresh context |
| TreePairs.FlexKey | src/otbullet/discrete_dynamics_world.h:103-121 | a flex record's hash key is its 16-bit tree identifier, likewise never the "no tree" value |
| TreePairs.InitWithLeavesDefault | src/otbullet/physics_cfg.h:125-141 | a fresh context names no tree (all ones); initialising the pair for a tree moves it off that value onto the tree's key |
| TreePairs.WorldStats.ResetStats | src/otbullet/discrete_dynamics_world.h:233-243 | every counter and timer is zeroed except the two broad-AABB ones, which keep their values |
| TreeFlex.AsWrittenChoice | src/otbullet/discrete_dynamics_world.cpp:459-466 | the loop as written keeps point 0 when it does not penetrate; otherwise it settles on a penetrating point that no later point beats |
| TreeFlex.SelectContactPointAsWritten | src/otbullet/discrete_dynamics_world.cpp:459-466 | the loop as written returns the point AsWrittenChoice names, and overwrites point 0 with it through the reference |
| TreeFlex.AsWrittenMissesPenetration | src/otbullet/discrete_dynamics_world.cpp:459-471 | as written, with points at distances 0.1 and -0.2 the positive point 0 is chosen and the manifold is cleared despite the penetration |
| TreeFlex.AsWrittenPicksShallowest | src/otbullet/discrete_dynamics_world.cpp:459-466 | as written, with points at -0.5 and -0.1 the shallower point -0.1 is chosen |
| TreeFlex.SelectDeepestContact | src/otbullet/discrete_dynamics_world.cpp:459-466 | the corrected selection returns the first index of the smallest distance |
| TreeFlex.Deepest | src/otbullet/discrete_dynamics_world.cpp:459-466 | the deepest point of a prefix has the smallest distance, and no earlier point has it |
| TreeFlex.DeepestUnique | src/otbullet/discrete_dynamics_world.cpp:459-466 | an index that is minimal and first is the one Deepest names |
| TreeFlex.DeepestClearsIffNoPenetration | src/otbullet/discrete_dynamics_world.cpp:468-471 | with the deepest point chosen, the manifold is cleared exactly when every point is separated |
| TreeFlex.StartCollision | src/otbullet/discrete_dynamics_world.cpp:473-488 | first contact marks the collision started; custom handling is switched on exactly when the stress reaches the yield stress (for a kinematic body, with zero inverse mass, exactly when it moves and the lever arm is positive), and then the braking force, the contact point, the directions and the lever arm are recorded; otherwise those are kept |
| TreeFlex.KinematicImpactYields | src/otbullet/discrete_dynamics_world.cpp:474-479 | a body with zero inverse mass yields the tree exactly when it moves and the lever arm is positive; a body with mass yields it exactly when momentum times lever arm times radius over I reaches the yield stress |
| TreeFlex.ImpactYieldsLeverNonZero | src/otbullet/discrete_dynamics_world.cpp:479-481 | whenever the tree yields, the divisor of the braking force is not zero |
| TreeFlex.BrakingForceIdentity | src/otbullet/discrete_dynamics_world.cpp:475-481 | for any non-zero lever arm the braking force formula inverts the stress formula |
| TreeFlex.BrakingForceGivesYield | src/otbullet/discrete_dynamics_world.cpp:479-481 | when the tree yields the lever arm is not zero, and the recorded braking force gives exactly the yield stress back |
| TreeFlex.StressExample | src/otbullet/discrete_dynamics_world.cpp:473-485 | with lever arm 0.5, momentum 100, radius 0.1 and I = 0.02 the stress is 5000/3, the tree yields and the braking force is 400 |
| TreeFlex.StepPair | src/otbullet/discrete_dynamics_world.cpp:456-504 | the pair step done as a sequence of updates computes PairStep |
| TreeFlex.SeparatedContactsOnlyClear | src/otbullet/discrete_dynamics_world.cpp:468-471 | on an unstarted pair whose contacts are all separated, the step only clears the manifold |
| TreeFlex.PenetrationStartsCollision | src/otbullet/discrete_dynamics_world.cpp:468-489 | on an unstarted pair with a touching or penetrating contact, the step starts the collision from the deepest point |
| TreeFlex.StepPairAsWritten | src/otbullet/discrete_dynamics_world.cpp:456-504 | the pair step as written, done as a sequence of updates, computes PairStepAsWritten: the as-written choice, point 0 overwritten by it, then the same first-contact and custom-handling stages |
| TreeFlex.AsWrittenStepIgnoresPenetration | src/otbullet/discrete_dynamics_world.cpp:459-489 | on a fresh pair with points at 0.1 and -0.2 the step as written clears the manifold and keeps the context, while the corrected step starts the collision on the penetrating point |
| TreeFlex.StepsAgreeOnOnePoint | src/otbullet/discrete_dynamics_world.cpp:459-504 | with a single contact point the step as written and the corrected step give the same outcome |
| TreeFlex.StartedPlainStepIsIdentity | src/otbullet/discrete_dynamics_world.cpp:459-503 | a started pair without custom handling keeps its context and contact points |
| TreeFlex.CustomHandlingBoundedByDuration | src/otbullet/discrete_dynamics_world.cpp:492-503 | under custom handling the manifold is cleared; below the maximum duration the deflection routine runs on the step's context, body and tree, and its result becomes the pair's context, the body's velocity and the tree's spring bytes; at or above it the step changes nothing else |
| TreeFlex.StartCollisionIgnoresSpring | src/otbullet/discrete_dynamics_world.cpp:473-481 | the first-contact stress rule reads the tree's stiffness, radius and yield stress but not its spring bytes |
| TreeFlex.StepWritesOnlyVelocityAndSpring | src/otbullet/discrete_dynamics_world.cpp:456-503 | whatever the deflection routine returns, a pair step changes of the body's impact state only its speed and direction, and of the tree only its spring bytes; the tree stays physical and keeps its identifier |
| CompoundFlatten.ChildEntries | src/otbullet/discrete_dynamics_world.cpp:220-239 | the children of a compound are pushed in order, each with its local transform composed onto the parent's |
| CompoundFlatten.StackLeavesAppend | src/otbullet/discrete_dynamics_world.cpp:220-239 | the stack yields the work items of its upper part before those of its lower part |
| CompoundFlatten.LeavesCountAndKind | src/otbullet/discrete_dynamics_world.cpp:220-239 | flattening yields one item per non-compound leaf of the shape tree, and no item is a compound |
| CompoundFlatten.StackLeavesCountAndKind | src/otbullet/discrete_dynamics_world.cpp:220-239 | a whole stack yields one item per leaf of its entries, none of them a compound |
| CompoundFlatten.SingleShapeOneItem | src/otbullet/discrete_dynamics_world.cpp:220-239 | a shape that is not a compound yields exactly itself, untransformed |
| CompoundFlatten.ChildItemsAreItems | src/otbullet/discrete_dynamics_world.cpp:220-239 | the items of a child, placed at the composed transform, are items of its parent |
| CompoundFlatten.StackLeavesContains | src/otbullet/discrete_dynamics_world.cpp:220-239 | every item of an entry of the stack is yielded by the stack |
| CompoundFlatten.Flatten | src/otbullet/discrete_dynamics_world.cpp:220-239 | the explicit-stack loop yields exactly the leaves of the shape tree placed at the body's transform |
| BvhQuery.Roots | src/otbullet/discrete_dynamics_world.cpp:567-571 | the initial stack holds the dynamic tree's root, then the static tree's, for those that exist |
| BvhQuery.ReportedIffReached | src/otbullet/discrete_dynamics_world.cpp:574-588 | a traversal reports an object exactly when the object sits at a kept leaf whose whole path passes the volume test |
| BvhQuery.PrunedSubtreeReportsNothing | src/otbullet/discrete_dynamics_world.cpp:574-588 | a subtree whose root fails the volume test reports nothing |
| BvhQuery.StackReportedMembers | src/otbullet/discrete_dynamics_world.cpp:574-588 | a stack reports exactly what its entries report |
| BvhQuery.ReportedMonotone | src/otbullet/discrete_dynamics_world.cpp:643-645 | a looser object test reports at least every object a stricter one does |
| BvhQuery.StackReportedMonotone | src/otbullet/discrete_dynamics_world.cpp:643-645 | the same monotonicity holds for whole stacks |
| BvhQuery.PushChildren | src/otbullet/discrete_dynamics_world.cpp:587-588 | replacing an accepted internal node by its two children keeps what remains to report and shrinks the stack |
| BvhQuery.AcceptedLeaf | src/otbullet/discrete_dynamics_world.cpp:574-588 | what an accepted leaf reports: its object if kept |
| BvhQuery.PopTop | src/otbullet/discrete_dynamics_world.cpp:574 | popping the top node splits what the stack reports into the top's part and the rest's |
| BvhQuery.VisitTop | src/otbullet/discrete_dynamics_world.cpp:574-590 | one pop of the query loop: a failing node drops out, an accepted leaf moves its kept object to the reported part, an accepted internal node is replaced by its children, and the stack shrinks |
| BvhQuery.QueryVolumeSphere | src/otbullet/discrete_dynamics_world.cpp:546-592 | the sphere query appends to the caller's vector exactly the objects the traversal from both roots reports under the sphere test, keeping what was there |
| BvhQuery.PassesPlanes | src/otbullet/discrete_dynamics_world.cpp:637-649 | the plane loop accepts an object exactly when every plane keeps it, fully or partially as asked |
| BvhQuery.QueryVolumeFrustum | src/otbullet/discrete_dynamics_world.cpp:594-662 | the frustum query appends to the caller's vector exactly the objects the traversal from both roots reports under the frustum test and the per-object plane test, keeping what was there |
| BvhQuery.FullImpliesPartial | src/otbullet/discrete_dynamics_world.cpp:643-645 | an object wholly inside the frustum also passes the partial test |
| BvhQuery.FullQueryWithinPartial | src/otbullet/discrete_dynamics_world.cpp:594-662 | the full-inclusion query never reports an object the partial query does not |
| BvhQuery.SphereQueryCharacterised | src/otbullet/discrete_dynamics_world.cpp:546-592 | after the sphere query the vector holds an object exactly when it held it before or the object sits at a leaf of one of the trees, reached through nodes that all intersect the sphere |
| DynamicsWorld.SwapRemove | src/otbullet/discrete_dynamics_world.cpp:158 | Bullet's removal of a body from the object list moves the last object into the removed body's place and shortens the list by one, removing exactly one occurrence and keeping every other position |
| DynamicsWorld.SwapRemoveDistinct | src/otbullet/discrete_dynamics_world.cpp:158 | on a duplicate-free object list the removal keeps exactly the other bodies, still without duplicates |
| DynamicsWorld.BuiltProxy | src/otbullet/discrete_dynamics_world.cpp:404-420 | a built proxy is a capsule of the tree's radius and height, centred half the height up the tree's axis, linked to the cache's current storage |
| DynamicsWorld.BuiltBatch | src/otbullet/discrete_dynamics_world.cpp:404-420 | building a batch builds the proxy of every slot below the tree count from its tree, and leaves the other slots and fields alone |
| DynamicsWorld.BuildTbCollisionInfo | src/otbullet/discrete_dynamics_world.cpp:404-420 | the slot-by-slot loop produces BuiltBatch |
| DynamicsWorld.Relinked | src/otbullet/discrete_dynamics_world.cpp:516-526 | relinking retakes every built proxy's shape link at the new address and changes nothing else |
| DynamicsWorld.Repaired | src/otbullet/discrete_dynamics_world.cpp:516-526 | the repair relinks a built batch and leaves an unbuilt one alone |
| DynamicsWorld.Stamped | src/otbullet/discrete_dynamics_world.cpp:369-373 | a referenced batch is built if it was unbuilt, and is stamped with the frame; a built batch keeps its proxies |
| DynamicsWorld.StampedOk | src/otbullet/discrete_dynamics_world.cpp:369-373 | stamping with a frame other than the none value keeps a cached batch consistent |
| DynamicsWorld.StampedTwice | src/otbullet/discrete_dynamics_world.cpp:369-373 | a second reference in the same frame changes nothing |
| DynamicsWorld.FreeSlot | src/otbullet/discrete_dynamics_world.cpp:205-207 | the slot allocator takes the first free slot, or appends when all are taken |
| DynamicsWorld.FindPair | src/otbullet/discrete_dynamics_world.cpp:388-390 | the pair search returns the first pair equal to the key, or none when no pair is equal |
| DynamicsWorld.TouchExisting | src/otbullet/discrete_dynamics_world.cpp:387-398 | marking the pair found equal to the key keeps the world consistent and covers the tree |
| DynamicsWorld.TouchNew | src/otbullet/discrete_dynamics_world.cpp:392-398 | appending a new pair with a fresh manifold when none is equal keeps the world consistent and covers the tree |
| DynamicsWorld.LeafPoints | src/otbullet/discrete_dynamics_world.cpp:245-349 | a body with no leaves gets no terrain points |
| DynamicsWorld.LeafPointsBounded | src/otbullet/discrete_dynamics_world.cpp:241-349 | filled from its cleared state leaf by leaf, a terrain manifold never holds more than four points, holds some only if a leaf hits, and once it has points keeps some |
| DynamicsWorld.TerrainResultKept | src/otbullet/discrete_dynamics_world.cpp:180-356 | processing one body does not disturb another body's terrain result |
| DynamicsWorld.NextFrameAsWritten | src/otbullet/discrete_dynamics_world.cpp:359 | the frame counter as written is a 32-bit increment |
| DynamicsWorld.NextFrame | src/otbullet/discrete_dynamics_world.cpp:359 | the corrected counter never produces the none value |
| DynamicsWorld.NextFrameAgrees | src/otbullet/discrete_dynamics_world.cpp:359 | the two counters agree except on the frame before the none value, where only the counter as written produces it |
| DynamicsWorld.StampedWithNoneSkipsRepair | src/otbullet/discrete_dynamics_world.cpp:516-526 | with the counter as written, a batch built in the frame after UMAX32 - 1 reads as unbuilt and keeps a stale shape link through the repair |
| DynamicsWorld.StampedWithNextFrameIsRepaired | src/otbullet/discrete_dynamics_world.cpp:516-526 | with the corrected counter, a stamped batch reads as built and the repair relinks it |
| DynamicsWorld.PairLookupRoundTrip | src/otbullet/discrete_dynamics_world.cpp:528-544 | get_tree and get_tree_collision_info of a pair made for a slot give back that slot's tree and proxy |
| DynamicsWorld.SweptShape | src/otbullet/discrete_dynamics_world.cpp:422-506 | after any number of pairs the cache keeps its shape and differs only in spring bytes, and no manifold has been added |
| DynamicsWorld.SweptManifoldUntouched | src/otbullet/discrete_dynamics_world.cpp:422-506 | a manifold that none of the pairs so far owns is still there, unchanged |
| DynamicsWorld.ReadyAt | src/otbullet/discrete_dynamics_world.cpp:438-442 | at its turn, each pair of a consistent table still finds its batch, tree, proxy and manifold, and its manifold is as it was before the sweep |
| DynamicsWorld.ValidSweepReady | src/otbullet/discrete_dynamics_world.cpp:438-442 | in a consistent world every pair names an existing tree and proxy and a live manifold, and pairs own distinct manifolds |
| DynamicsWorld.SweepPairs | src/otbullet/discrete_dynamics_world.cpp:424-505 | the loop over the pairs computes the state `Sweep` reaches after all of them: pairs kept, manifolds, cache and impact states |
| DynamicsWorld.SweepOne | src/otbullet/discrete_dynamics_world.cpp:425-504 | one pass of the loop body, on the tables the pairs before have left, is one step of `Sweep`: spring cleared, manifold released, or the pair stepped on its tree as it now is and its body's current velocity, with points, tree and velocity written back |
| DynamicsWorld.KeptStep | src/otbullet/discrete_dynamics_world.cpp:438-456 | one more pair appends its survivor to the pairs kept exactly when it is active and reused |
| DynamicsWorld.ManifoldStep | src/otbullet/discrete_dynamics_world.cpp:425-503 | one more pair leaves the manifold table alone when inactive, releases its manifold when unreused, and otherwise stores its step's points in it |
| DynamicsWorld.ImpactStep | src/otbullet/discrete_dynamics_world.cpp:492-495 | one more pair sets its body's impact state to what its step leaves when it is live, and leaves every other body's |
| DynamicsWorld.SweepHandsOnVelocity | src/otbullet/discrete_dynamics_world.cpp:492-495 | a live pair's step reads its body's velocity as earlier pairs left it and hands on the velocity its own deflection leaves |
| DynamicsWorld.OutcomeKeepsMass | src/otbullet/discrete_dynamics_world.cpp:456-503 | a pair's step changes of its body's impact state at most speed and direction |
| DynamicsWorld.SweptImpactsKeepMass | src/otbullet/discrete_dynamics_world.cpp:422-506 | the sweep changes of every body's impact state at most its velocity |
| DynamicsWorld.SweptImpactsUntouched | src/otbullet/discrete_dynamics_world.cpp:422-506 | a body with no live pair keeps its impact state |
| DynamicsWorld.SweptMembers | src/otbullet/discrete_dynamics_world.cpp:425-456 | the pairs kept are exactly the survivors of the active, reused pairs, each with the context its step left |
| DynamicsWorld.SweptFrom | src/otbullet/discrete_dynamics_world.cpp:425-456 | every pair kept has the body, tree key and manifold of a pair of the table |
| DynamicsWorld.SweptDistinct | src/otbullet/discrete_dynamics_world.cpp:422-506 | the pairs left stay unique by (body, key) and own distinct manifolds |
| DynamicsWorld.SweptManifoldOf | src/otbullet/discrete_dynamics_world.cpp:425-504 | an inactive pair's manifold stays, an unreused pair's manifold is released, and a live pair's manifold holds the points its step leaves |
| DynamicsWorld.SweptSpringCleared | src/otbullet/discrete_dynamics_world.cpp:425-427 | an inactive pair's step leaves its tree's spring bytes cleared; a live pair's leaves its tree as its own step left it |
| DynamicsWorld.SweptTreeUntouched | src/otbullet/discrete_dynamics_world.cpp:422-506 | a tree that none of a run of pairs names keeps the state the pairs before the run left it in; a tree no pair names is untouched |
| DynamicsWorld.SweptAwaitReuse | src/otbullet/discrete_dynamics_world.cpp:456 | every pair left is active and waits to be reused next frame |
| DynamicsWorld.SweptValid | src/otbullet/discrete_dynamics_world.cpp:422-506 | the sweep keeps every consistency invariant of the world and leaves the terrain manifolds alone |
| DynamicsWorld.World.constructor | src/otbullet/discrete_dynamics_world.cpp:715-741 | a new world has no bodies, slots, manifolds, batches or pairs, starts at frame 0, and is consistent |
| DynamicsWorld.World.RemoveRigidBody | src/otbullet/discrete_dynamics_world.cpp:147-159 | a held terrain manifold has its slot deleted and is released; the handle becomes none, the body leaves the world and the object list by Bullet's swap-remove, and nothing else changes |
| DynamicsWorld.World.AcquireTerrainManifold | src/otbullet/discrete_dynamics_world.cpp:202-213 | a body without a manifold gets a fresh planet manifold in the first free slot; a body holding one gets it looked up; other bodies' slots are kept |
| DynamicsWorld.World.NewTerrainManifold | src/otbullet/discrete_dynamics_world.cpp:202-208 | a body without a terrain manifold gets the next manifold id with the planet, in the first free slot, which becomes its handle; other bodies' slots are kept |
| DynamicsWorld.World.ClearedTerrainManifold | src/otbullet/discrete_dynamics_world.cpp:201-243 | the body holds a planet manifold through its handle, and that manifold has no points |
| DynamicsWorld.World.ReleaseTerrainManifold | src/otbullet/discrete_dynamics_world.cpp:351-356 | a body's terrain manifold is released, its slot freed and its handle reset to none |
| DynamicsWorld.World.RepairTreeBatches | src/otbullet/discrete_dynamics_world.cpp:516-526 | every batch becomes Repaired at the current address, so every built batch links there |
| DynamicsWorld.World.RepairTreeCollisionPairs | src/otbullet/discrete_dynamics_world.cpp:508-514 | every pair's manifold is re-pointed at the proxy of its decoded batch and slot; no other manifold changes |
| DynamicsWorld.World.TouchPair | src/otbullet/discrete_dynamics_world.cpp:387-398 | the tree becomes covered by a reused pair; old pairs keep their place, at most one pair and one manifold are added |
| DynamicsWorld.World.PrepareBatch | src/otbullet/discrete_dynamics_world.cpp:365-400 | the batch is stamped, and every hit tree that is not broken is covered by a reused pair |
| DynamicsWorld.World.PrepareTreeCollisionPairs | src/otbullet/discrete_dynamics_world.cpp:363-402 | every referenced batch is stamped, every unbroken hit tree of them is covered, and newly marked pairs are candidates of the query |
| DynamicsWorld.World.PrepareRef | src/otbullet/discrete_dynamics_world.cpp:365-401 | one referenced batch is stamped and its hit trees are covered, extending the loop's facts from the first `i` references to the first `i + 1` |
| DynamicsWorld.World.Relocate | src/otbullet/discrete_dynamics_world.cpp:508-526 | after the cache's storage moves and both repairs run, the world is consistent at the new address, the terrain manifolds, the pairs and every batch's trees are kept |
| DynamicsWorld.World.GrowCache | src/otbullet/discrete_dynamics_world.cpp:313-314 | batches appended by the provider join the cache unbuilt, keeping the world consistent |
| DynamicsWorld.World.SetTerrainPoints | src/otbullet/discrete_dynamics_world.cpp:242-243 | only the points of the given terrain manifold change |
| DynamicsWorld.World.ProcessLeaf | src/otbullet/discrete_dynamics_world.cpp:245-349 | a concave leaf or a miss leaves the body's terrain manifold alone; a hit leaves it as the leaf's contact stages do; other terrain manifolds are kept, and the pairs of the trees the leaf hit are readied |
| DynamicsWorld.World.AdmitBatches | src/otbullet/discrete_dynamics_world.cpp:313-322 | the batches a leaf's query appended join the cache with their trees, and a moved cache is repaired; every earlier batch keeps its trees, the pairs and the planet manifolds are kept |
| DynamicsWorld.World.ProcessHit | src/otbullet/discrete_dynamics_world.cpp:312-348 | a hitting leaf's batches join the cache, the cache is repaired if it moved, the contact stages act on the body's terrain manifold, and every unbroken hit tree of the referenced batches is covered by a reused pair of the body; old pairs and batch trees are kept |
| DynamicsWorld.World.ProcessLeaves | src/otbullet/discrete_dynamics_world.cpp:245-349 | after the leaf loop the body's terrain manifold holds LeafPoints of its leaves, at most four points, and every leaf's pairs are readied |
| DynamicsWorld.World.FinishBody | src/otbullet/discrete_dynamics_world.cpp:351-356 | the body's manifold is released exactly when it ended without points |
| DynamicsWorld.World.TerrainStepBody | src/otbullet/discrete_dynamics_world.cpp:180-356 | a static, sleeping or unsupported body is untouched; a processed body ends with its leaves' points in its terrain manifold, or without a manifold when there are none, and with the pairs of every tree its leaves hit readied |
| DynamicsWorld.World.ProcessBody | src/otbullet/discrete_dynamics_world.cpp:201-356 | a processable body ends with its leaves' points in its terrain manifold, or with no manifold when there are none, and with the pairs of every tree its leaves hit readied; other bodies' slots are kept |
| DynamicsWorld.World.OtTerrainCollisionStep | src/otbullet/discrete_dynamics_world.cpp:161-361 | every processed body ends with exactly its leaves' points and with the pairs of every tree its leaves hit readied; every skipped body keeps its handle, its slot and its terrain manifold with its points; the frame counter advances |
| DynamicsWorld.World.StepOrderEntry | src/otbullet/discrete_dynamics_world.cpp:180-356 | one body of the world's order gets its terrain result and its readied pairs, the bodies before it keep theirs, and skipped bodies stay kept |
| DynamicsWorld.World.ProcessTreeCollisions | src/otbullet/discrete_dynamics_world.cpp:422-506 | the pair table, manifold table and cache become, and the impact states returned are, the state `Sweep` reaches after every pair; the world stays consistent, the terrain manifolds are kept, and every pair left is active and not reused |
| DynamicsWorld.World.InternalSingleStep | src/otbullet/discrete_dynamics_world.cpp:108-109 | the terrain step followed by the sweep leaves every processed body with its leaves' points, every skipped body with its handle, slot and terrain manifold, every pair waiting for reuse, and every body's impact state changed at most in velocity |
| Wrapper.CreateShape | src/otbullet/wrapper.cpp:571-597 | create_shape gives no shape exactly for the none and dynamic-mesh kinds, and a capsule for the capsule kind |
| Wrapper.CapsuleRoundTrip | src/otbullet/wrapper.cpp:579-592 | a capsule created from its own half extents has the same axis, radius and height |
| Wrapper.ShortCapsuleTakenAsX | src/otbullet/wrapper.cpp:579-592 | a Y capsule with height below the tolerance is created along X |
| Wrapper.CollisionObject.constructor | src/otbullet/wrapper.cpp:696-719 | a new object keeps its ghost-ness, shape kind, transform and Outerra flags, takes the base class's collision flags and activation state, and has no broadphase handle |
| Wrapper.UpdateCollisionObject | src/otbullet/wrapper.cpp:835-843 | the transform is always set, and the flags become TransformChangedFlags of the old flags |
| Wrapper.TransformChangedFlags | src/otbullet/wrapper.cpp:835-843 | the transformation-changed bit is set when asked, every other bit is kept, and nothing changes when not asked |
| Wrapper.SetCollisionInfo | src/otbullet/wrapper.cpp:722-729 | group and mask replace the filter only when a broadphase handle exists |
| Wrapper.AddCollisionObjectToExternalBroadphase | src/otbullet/wrapper.cpp:353-379 | a full island refuses and creates nothing; otherwise a proxy is added, the handle set and true returned |
| Wrapper.ChildIndex | src/otbullet/wrapper.cpp:651-678 | the index of the first child holding the shape, or -1 when none does |
| Wrapper.CompoundShape.FindChild | src/otbullet/wrapper.cpp:653-661 | the linear search returns ChildIndex |
| Wrapper.CompoundShape.UpdateChild | src/otbullet/wrapper.cpp:651-663 | the first child holding the shape gets the transform; a missing child changes nothing |
| Wrapper.CompoundShape.GetChildTransform | src/otbullet/wrapper.cpp:666-678 | the transform of the first child holding the shape, or none |
| Wrapper.UpdateThenGet | src/otbullet/wrapper.cpp:651-678 | reading a child's transform after updating it gives the transform set |
| Wrapper.SensorRegistrations | src/otbullet/wrapper.cpp:55-63 | each sensor ghost of the pair is registered with the other object |
| Wrapper.RegistrationsSymmetric | src/otbullet/wrapper.cpp:55-63 | the registrations do not depend on the order in which the pair is reported |
| Wrapper.SensorRegistrationsAsWritten | src/otbullet/wrapper.cpp:55-63 | the second registration tests the second object's ghost-ness but the first object's flags |
| Wrapper.AsWrittenFaultsOnSecondSensor | src/otbullet/wrapper.cpp:60-63 | a sensor ghost reported second next to a plain object dereferences a null ghost |
| Wrapper.AsWrittenRegistersNonSensor | src/otbullet/wrapper.cpp:60-63 | a ghost without the sensor flag is registered when the first object is a sensor |
| Wrapper.AsWrittenAgreesWithoutSecondGhost | src/otbullet/wrapper.cpp:55-63 | the as-written and corrected registrations agree when the second object is not a ghost |
| Wrapper.Physics.AddOverlappingPair | src/otbullet/wrapper.cpp:55-63 | the sensor table grows by the pair's registrations |
| Wrapper.Physics.RemoveOverlappingPair | src/otbullet/wrapper.cpp:77-85 | the sensor table shrinks by the same registrations |
| Wrapper.Physics.AddCollisionObject | src/otbullet/wrapper.cpp:746-774 | an inactive object is disabled first; a refused object gets no other change; an accepted ghost gets no contact response, is hidden from debug drawing and becomes an occluder |
| Wrapper.PairCallbacksRoundTrip | src/otbullet/wrapper.cpp:55-85 | adding and then removing a pair leaves the sensor table as it was |
| NavigationProbe.NeedsCollisionSymmetric | src/otbullet/navigation_probe.cpp:150-155 | the group/mask filter does not depend on which object asks |
| NavigationProbe.ClosestIsMinimal | src/otbullet/navigation_probe.cpp:25-50 | the kept hit is an admissible reported hit before the sweep's end, and no admissible hit is closer |
| NavigationProbe.ClosestNotMeCallback.AddSingleResult | src/otbullet/navigation_probe.cpp:25-50 | a hit on the probe, without contact response, or steeper than the slope limit returns 1 and is not recorded; any other hit is recorded and its fraction returned |
| NavigationProbe.ClosestNotMeCallback.Sweep | src/otbullet/navigation_probe.cpp:104-111 | after the sweep the callback holds Closest of the reported hits |
| NavigationProbe.StepOriginOnSegment | src/otbullet/navigation_probe.cpp:113-116 | on an accepted hit the probe stops at the hit fraction of the segment from current to target |
| NavigationProbe.PosRoundTrip | src/otbullet/navigation_probe.cpp:127-146 | get_pos of the transform built for a position gives the position back, and the rotation is kept |
| NavigationProbe.Probe.SetTransform | src/otbullet/navigation_probe.cpp:72-75 | after set_transform the probe reads back exactly the position and rotation set |
| NavigationProbe.Probe.SimStep | src/otbullet/navigation_probe.cpp:79-123 | the sweep runs only for a squared move above 0.0001; on an accepted hit the origin stops at the hit fraction, otherwise it reaches the target; the rotation becomes the target's |
| NavigationProbe.UnobstructedStepReachesTarget | src/otbullet/navigation_probe.cpp:108-122 | with no hit before the end, or a move too short to sweep, the probe lands exactly on the target position |

## Left out

- Bullet's own algorithms are parameters of the model: the narrow phase (`findAlgorithm`, `processCollision`, `refreshContactPoints`), the dispatcher's manifold allocator, collision-object wrappers, box–sphere and box–frustum intersection, and the convex sweep. The dispatcher is abstracted to a table of manifolds with their contact points.
- The terrain provider is a parameter: triangle gathering, the contact stages and the tree query of the terrain step (cpp 245-349). It is asked per leaf and returns the batches it referenced, the tree hits, and what its contact stages do to the body's terrain manifold.
- ContactOk: Bullet's persistent manifold is modelled only by its bounds. It never holds more than four points and never loses all its points while contacts are added. Which point it merges or replaces is not modelled.
- The tree-hit distance test (cpp 384-386) is the parameter `treeHit`.
- `internalSingleStepSimulation` is modelled only for its terrain phase (cpp 108-109). The base-class phases (motion prediction, islands, solver, integration, callbacks) and the profiling timers are not part of this model.
- Floating point is modelled as `real`, and quaternion rotation is the exact formula for a unit quaternion. Single versus double precision and rounding are not modelled.
- The `_ext_*` callbacks, the debug drawer tables and the profiling statistics beyond `reset_stats` are left out. They are I/O, foreign calls or diagnostics.
- The deflection routine `_tree_collision` (src/otbullet/discrete_dynamics_world.cpp:494, forwarded at src/otbullet/wrapper.cpp:216-221) is a parameter `Deflector`, and its displacement result, which only feeds the debug drawer, is left out.
- `DynamicsWorld.World.InternalSingleStep` and the terrain-step methods require the slot table plus the body list to stay below 2^32 - 1 entries, so that slot handles do not collide with the none value.
- Batch handles above 2^28 are excluded by the `requires` of the pair methods. `TreePairs.PackWrapsAbove28Bits` shows what happens otherwise.
- The source uses a pair's `active` flag, but this core never clears it. The model carries the flag and its branch in the sweep unchanged.
- An inactive pair's manifold is left in the manifold table when the pair is dropped (cpp 425-430 release nothing). The model keeps it there too.
- The ownership of slots and the `slotalloc` containers are abstracted to a sequence of optional manifold ids with first-free allocation.
- TouchPair appends a new pair at the end of the pair table. In the source the table is a `coid::slotalloc` (discrete_dynamics_world.h:150), which may put a new pair into a slot an earlier sweep freed; and the sweep deletes pairs in place, where the model compacts the sequence.
- SweepPairs visits the pairs in the model's table order. Because of the TouchPair placement, that order can differ from the order the source's loop at cpp 424 visits them in.
- ProcessTreeCollisions and InternalSingleStep inherit that order. When one body has several live pairs, the velocity each pair's deflection reads, and so the impact states returned, can differ from the source's.
- BuiltProxy leaves out the proxy's rotation, the quaternion turning the Y axis onto the tree's axis (cpp 410-415). Only the capsule size, the origin and the shape link are modelled.
- World.unitOf is the normalisation of a tree's position into its axis. It is a parameter with no constraint, so nothing is proved about the axis direction beyond using it.
- `Wrapper.CompoundShape.UpdateChild`: the source indexes the child list with -1 when the child is missing. The model changes nothing in that case, because index -1 is outside the list.
- `Wrapper.Physics.AddCollisionObject`: the world's own add is the parameter `accepted`. The sensor-table insertion of `add_sensor_object` is not part of this model.
- `NavigationProbe.ClosestNotMeCallback.Sweep`: the model assumes Bullet's convex sweep reports a hit only when it is closer than the closest hit so far, and that the hits it reports already passed the callback's group/mask filter.
- The façade's pass-through methods (ray tests, constraints, mesh helpers, `destroy_*`, `create`) and shape kinds other than the capsule are left out, as they hold no logic of their own beyond the covered switch.
- The declarations-only headers `otbullet.hpp` and `navigation_probe.h` are not part of this model. From `otflags.h` only the two flag bits are copied.
- StepPair, SeparatedContactsOnlyClear and PenetrationStartsCollision are stated of the corrected contact selection of the Findings table (the deepest point, point 0 not overwritten). The step as written is `TreeFlex.StepPairAsWritten`, and `TreeFlex.AsWrittenStepIgnoresPenetration` shows where the two differ.
- SweepPairs, SweepOne and SweptManifoldOf: the world's pair sweep runs the corrected step `TreeFlex.PairStep`, not the step as written.
- ProcessTreeCollisions and InternalSingleStep inherit that choice: their pairs, manifolds and batches are those of the corrected sweep.
- SweptShape, SweptTreeUntouched, SweepOne, ProcessTreeCollisions and InternalSingleStep: the deflection routine is modelled as writing only the pair's context, its body's velocity and its own tree's spring bytes. The routine receives the whole batch cache, so in the source it could also write other trees or grow and move the cache (src/otbullet/wrapper.cpp:133-136); the model does not capture that, and the cache-shape facts of these members depend on it.
- Sweep passes over a pair whose batch or manifold is missing, where the source would read out of range; ReadyAt shows that in a consistent world this never happens.
- OtTerrainCollisionStep advances the frame with the corrected counter `DynamicsWorld.NextFrame`, which never reaches the all-ones value; the 32-bit counter as written is `DynamicsWorld.NextFrameAsWritten`.
- World.constructor starts a frame counter of its own at 0. In the source the counter is a function-local static (cpp 163), so all worlds share it and it carries over from earlier worlds.
- ProcessLeaf and AnswerOk assume that when the provider reports a miss it has neither grown nor moved the tree batch cache. The source's debug assertion (cpp 316) backs only an empty batch list, and on a miss it skips the repair of batches and pairs (cpp 315-322).
- GetChildTransform returns none for a shape that is not a child. The source then asks the compound for child -1 (wrapper.cpp 666-678), an out-of-bounds read.
- The header declares a pair built from a body and a tree pointer (discrete_dynamics_world.h 61-71). The model follows the cpp, which builds pairs from a body and a packed batch-and-slot key (cpp 387-394) and decodes that key (cpp 528-544).
- PosRoundTrip, SetTransform and WorldNormal model a transform's basis by the quaternion it was set from, rotating with the unit-quaternion formula. A btTransform stores the normalised rotation matrix and reads back q/|q| or its negation, so the source's round trip holds only for unit quaternions and up to sign.
- IsPhysical trees are assumed to have a positive moment of inertia, radius and yield stress; the stress formula divides by the moment of inertia.
- The constant `TREE_COLLISION_TIME` (h 18) is carried over, but no code of this core uses it.

## Findings

| source | as written | input that shows it | evidently intended | confidence | as-written member | corrected member |
|---|---|---|---|---|---|---|
| src/otbullet/wrapper.cpp:60-85 | the second registration checks that object 1 is a ghost but reads the sensor flag from object 0's ghost | object 0 a plain object, object 1 a sensor ghost: null ghost dereferenced; object 0 a sensor, object 1 a non-sensor ghost: object 1 registered as a sensor | each object registered as a sensor exactly when it is a sensor ghost | not executed | Wrapper.SensorRegistrationsAsWritten, Wrapper.AsWrittenFaultsOnSecondSensor, Wrapper.AsWrittenRegistersNonSensor | Wrapper.SensorRegistrations, Wrapper.RegistrationsSymmetric, Wrapper.Physics.AddOverlappingPair, Wrapper.Physics.RemoveOverlappingPair |
| src/otbullet/discrete_dynamics_world.cpp:459-466 | keeps point 0 when it is not penetrating, and among penetrating points keeps the larger (shallower) distance; `min_cp = tmp_cp` also overwrites contact point 0 | distances [0.1, -0.2]: the manifold is cleared despite a penetration; [-0.5, -0.1]: -0.1 is chosen | the deepest point (smallest distance), so the manifold is cleared only when no point penetrates | not executed | TreeFlex.SelectContactPointAsWritten, TreeFlex.AsWrittenMissesPenetration, TreeFlex.AsWrittenPicksShallowest, TreeFlex.StepPairAsWritten, TreeFlex.AsWrittenStepIgnoresPenetration | TreeFlex.SelectDeepestContact, TreeFlex.DeepestUnique, TreeFlex.DeepestClearsIffNoPenetration |
| src/otbullet/discrete_dynamics_world.cpp:359 | the 32-bit frame counter reaches the all-ones value that also marks an unbuilt batch | frame 2^32 - 2 followed by one increment: a batch stamped then reads as unbuilt, and the repair skips it after a relocation | a frame counter that never takes the none value | not executed | DynamicsWorld.NextFrameAsWritten, DynamicsWorld.StampedWithNoneSkipsRepair | DynamicsWorld.NextFrame, DynamicsWorld.StampedWithNextFrameIsRepaired, DynamicsWorld.NextFrameAgrees |
