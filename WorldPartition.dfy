/** The world partition manager (WorldPartitionManager.cpp): actors whose
    bounds changed wait in a FIFO queue, a set keeps the queue free of
    duplicates while an actor is dirty, and `Update` hands a budgeted number
    of them per frame to the world's octree. */
module WorldPartition {
  import opened Text
  import Octree
  import Bounds

  /** What the manager asks of an actor pointer: its identity in the octree,
      whether it is an `AStaticMeshActor`, whether it has a root component
      and whether it belongs to a world. A null pointer is `None`. */
  datatype ActorRef = ActorRef(Id: Octree.ActorId, IsStaticMeshActor: bool, HasRootComponent: bool, InWorld: bool)

  /** `Update`'s default budget. */
  const DEFAULT_BUDGET: nat := 256

  /** `ShouldIndexActor`: only non-null static-mesh actors are indexed. */
  predicate ShouldIndex(owner: Option<ActorRef>)
  {
    owner.Some? && owner.value.IsStaticMeshActor
  }

  /** Every dirty actor still has an entry in the queue. */
  ghost predicate Covered(queue: seq<ActorRef>, dirty: set<ActorRef>)
  {
    forall x :: x in dirty ==> x in queue
  }

  ghost predicate TreeValid(tree: Option<Octree.FOctree>)
  {
    tree.Some? ==> Octree.Valid(tree.value)
  }

  /** `Register` and `MarkDirty`: an indexed actor that is not yet dirty
      becomes dirty and is queued once; anything else changes nothing. */
  function Mark(queue: seq<ActorRef>, dirty: set<ActorRef>, owner: Option<ActorRef>): (r: (seq<ActorRef>, set<ActorRef>))
    ensures r.1 == if ShouldIndex(owner) then dirty + {owner.value} else dirty
    ensures ShouldIndex(owner) && owner.value !in dirty ==> r.0 == queue + [owner.value]
    ensures !ShouldIndex(owner) || owner.value in dirty ==> r.0 == queue
  {
    if !ShouldIndex(owner) then (queue, dirty)
    else if owner.value in dirty then (queue, dirty)
    else (queue + [owner.value], dirty + {owner.value})
  }

  /** The dirty set after `Unregister`: an indexed actor with a root
      component stops being dirty; its queue entry stays behind. */
  function Forget(dirty: set<ActorRef>, owner: Option<ActorRef>): (r: set<ActorRef>)
    ensures r <= dirty
    ensures ShouldIndex(owner) && owner.value.HasRootComponent ==> owner.value !in r
    ensures forall x :: x in dirty && (!ShouldIndex(owner) || x != owner.value) ==> x in r
  {
    if ShouldIndex(owner) && owner.value.HasRootComponent then dirty - {owner.value} else dirty
  }

  /** What one `Update` does to the queue and the set: entries are popped
      from the front while the queue is not empty and fewer than `budget`
      actors have been processed; a popped entry whose actor is no longer
      dirty is skipped without counting. Returns the queue left, the dirty
      set left and the processed actors in order. */
  function Drain(queue: seq<ActorRef>, dirty: set<ActorRef>, budget: nat): (r: (seq<ActorRef>, set<ActorRef>, seq<ActorRef>))
    ensures |r.0| <= |queue|
    decreases |queue|
  {
    if queue == [] || budget == 0 then (queue, dirty, [])
    else
      var a := queue[0];
      if a !in dirty then Drain(queue[1..], dirty, budget)
      else
        var r := Drain(queue[1..], dirty - {a}, budget - 1);
        (r.0, r.1, [a] + r.2)
  }

  /** What `Update` promises: at most `budget` actors are processed, and
      exactly `budget` when it stops before the queue runs out; the queue
      left is what was not popped; the processed actors are distinct, were
      dirty and were popped; they and only they stop being dirty. */
  lemma {:induction false} DrainFacts(queue: seq<ActorRef>, dirty: set<ActorRef>, budget: nat)
    ensures var r := Drain(queue, dirty, budget);
      |r.2| <= budget && (r.0 != [] ==> |r.2| == budget) &&
      r.0 == queue[|queue| - |r.0|..]
    ensures var r := Drain(queue, dirty, budget);
      forall x :: x in r.2 ==> x in dirty && x in queue[..|queue| - |r.0|]
    ensures var r := Drain(queue, dirty, budget);
      forall x :: x in r.1 ==> x in dirty && x !in r.2
    ensures var r := Drain(queue, dirty, budget);
      forall x :: x in dirty && x !in r.2 ==> x in r.1
    ensures var r := Drain(queue, dirty, budget);
      forall i, j :: 0 <= i < j < |r.2| ==> r.2[i] != r.2[j]
    decreases |queue|
  {
    if queue != [] && budget != 0 {
      var a := queue[0];
      var d := if a in dirty then dirty - {a} else dirty;
      var b := if a in dirty then budget - 1 else budget;
      var r := Drain(queue[1..], d, b);
      DrainFacts(queue[1..], d, b);
      assert queue[1..][..|queue| - 1 - |r.0|] == queue[1..|queue| - |r.0|];
      assert queue[1..][|queue| - 1 - |r.0|..] == queue[|queue| - |r.0|..];
      if a in dirty {
        var p := [a] + r.2;
        assert Drain(queue, dirty, budget) == (r.0, r.1, p);
        forall i, j | 0 <= i < j < |p|
          ensures p[i] != p[j]
        {
          if i == 0 {
            assert p[j] == r.2[j - 1] && p[j] in r.2;
          } else {
            assert p[i] == r.2[i - 1] && p[j] == r.2[j - 1];
          }
        }
      } else {
        assert Drain(queue, dirty, budget) == r;
      }
    }
  }

  /** One processed actor: the world's octree, when the actor is in a world
      that has one, updates the actor's entry. */
  function UpdateOne(tree: Option<Octree.FOctree>, a: ActorRef, current: Octree.ActorId -> Bounds.FBound): (r: Option<Octree.FOctree>)
    requires TreeValid(tree)
    ensures TreeValid(r) && (r.Some? <==> tree.Some?)
    ensures !a.InWorld ==> r == tree
  {
    if a.InWorld && tree.Some? then Some(Octree.UpdateCached(tree.value, a.Id, current)) else tree
  }

  /** The octree after the processed actors, in order. */
  function UpdateAll(tree: Option<Octree.FOctree>, done: seq<ActorRef>, current: Octree.ActorId -> Bounds.FBound): (r: Option<Octree.FOctree>)
    requires TreeValid(tree)
    ensures TreeValid(r) && (r.Some? <==> tree.Some?)
    decreases |done|
  {
    if done == [] then tree
    else UpdateOne(UpdateAll(tree, done[..|done| - 1], current), done[|done| - 1], current)
  }

  /** Marking keeps every dirty actor queued. */
  lemma MarkKeepsCovered(queue: seq<ActorRef>, dirty: set<ActorRef>, owner: Option<ActorRef>)
    requires Covered(queue, dirty)
    ensures Covered(Mark(queue, dirty, owner).0, Mark(queue, dirty, owner).1)
  {
    var r := Mark(queue, dirty, owner);
    forall x | x in r.1
      ensures x in r.0
    {
      if x in dirty {
        assert x in queue;
      }
    }
  }

  /** Marking an actor twice queues it once. */
  lemma MarkIdempotent(queue: seq<ActorRef>, dirty: set<ActorRef>, owner: Option<ActorRef>)
    ensures var r := Mark(queue, dirty, owner); Mark(r.0, r.1, owner) == r
  {
  }

  /** Forgetting keeps every dirty actor queued. */
  lemma ForgetKeepsCovered(queue: seq<ActorRef>, dirty: set<ActorRef>, owner: Option<ActorRef>)
    requires Covered(queue, dirty)
    ensures Covered(queue, Forget(dirty, owner))
  {
  }

  /** `Update` keeps every actor that is still dirty queued. */
  lemma {:induction false} DrainKeepsCovered(queue: seq<ActorRef>, dirty: set<ActorRef>, budget: nat)
    requires Covered(queue, dirty)
    ensures Covered(Drain(queue, dirty, budget).0, Drain(queue, dirty, budget).1)
    decreases |queue|
  {
    if queue != [] && budget != 0 {
      var a := queue[0];
      var d := if a in dirty then dirty - {a} else dirty;
      forall x | x in d
        ensures x in queue[1..]
      {
        assert x in queue && x != queue[0];
      }
      var b := if a in dirty then budget - 1 else budget;
      var r := Drain(queue[1..], d, b);
      assert Drain(queue, dirty, budget).0 == r.0 && Drain(queue, dirty, budget).1 == r.1;
      DrainKeepsCovered(queue[1..], d, b);
      DrainFacts(queue[1..], d, b);
    }
  }

  /** One step of `Drain`: the front entry is popped, and counted when its
      actor is dirty. */
  lemma DrainStep(queue: seq<ActorRef>, dirty: set<ActorRef>, budget: nat)
    requires queue != [] && budget > 0
    ensures var a := queue[0];
      var r := Drain(queue[1..], dirty - {a}, if a in dirty then budget - 1 else budget);
      Drain(queue, dirty, budget) == (r.0, r.1, (if a in dirty then [a] else []) + r.2)
  {
    var a := queue[0];
    if a !in dirty {
      assert dirty - {a} == dirty;
      assert [] + Drain(queue[1..], dirty, budget).2 == Drain(queue[1..], dirty, budget).2;
    }
  }

  /** The loop form of `DrainStep`: popping the front entry keeps the
      outcome of the whole `Update`, with the actor moved to the processed
      prefix when it was dirty. */
  lemma DrainAdvance(q: seq<ActorRef>, d: set<ActorRef>, left: nat, done: seq<ActorRef>,
                     total: (seq<ActorRef>, set<ActorRef>, seq<ActorRef>))
    requires q != [] && left > 0
    requires Drain(q, d, left).0 == total.0 && Drain(q, d, left).1 == total.1
    requires done + Drain(q, d, left).2 == total.2
    ensures var a := q[0];
      var left' := if a in d then left - 1 else left;
      var done' := if a in d then done + [a] else done;
      Drain(q[1..], d - {a}, left').0 == total.0 && Drain(q[1..], d - {a}, left').1 == total.1 &&
      done' + Drain(q[1..], d - {a}, left').2 == total.2
  {
    var a := q[0];
    DrainStep(q, d, left);
    var r := Drain(q[1..], d - {a}, if a in d then left - 1 else left);
    if a in d {
      assert done + ([a] + r.2) == (done + [a]) + r.2;
    } else {
      assert [] + r.2 == r.2;
    }
  }

  /** When `Update`'s loop stops, nothing more would be processed. */
  lemma DrainEnd(q: seq<ActorRef>, d: set<ActorRef>, left: nat, done: seq<ActorRef>,
                 total: (seq<ActorRef>, set<ActorRef>, seq<ActorRef>))
    requires q == [] || left == 0
    requires Drain(q, d, left).0 == total.0 && Drain(q, d, left).1 == total.1
    requires done + Drain(q, d, left).2 == total.2
    ensures q == total.0 && d == total.1 && done == total.2
  {
    assert done + [] == done;
  }

  lemma UpdateAllSnoc(tree: Option<Octree.FOctree>, done: seq<ActorRef>, a: ActorRef, current: Octree.ActorId -> Bounds.FBound)
    requires TreeValid(tree)
    ensures UpdateAll(tree, done + [a], current) == UpdateOne(UpdateAll(tree, done, current), a, current)
  {
    assert (done + [a])[..|done|] == done;
  }

  /** An actor unregistered (with its root component) is not processed by
      the next `Update`, although its queue entry is still there. */
  lemma UnregisteredNotProcessed(queue: seq<ActorRef>, dirty: set<ActorRef>, a: ActorRef, budget: nat)
    requires a.IsStaticMeshActor && a.HasRootComponent
    ensures a !in Drain(queue, Forget(dirty, Some(a)), budget).2
  {
    DrainFacts(queue, Forget(dirty, Some(a)), budget);
  }

  class UWorldPartitionManager {
    var DirtyQueue: seq<ActorRef>
    var DirtySet: set<ActorRef>

    ghost predicate Valid()
      reads this
    {
      Covered(DirtyQueue, DirtySet)
    }

    constructor()
      ensures Valid() && DirtyQueue == [] && DirtySet == {}
    {
      DirtyQueue := [];
      DirtySet := {};
    }

    /** `Clear` does nothing. */
    method Clear()
      ensures unchanged(this)
    {
    }

    method Register(owner: Option<ActorRef>)
      requires Valid()
      modifies this
      ensures Valid()
      ensures (DirtyQueue, DirtySet) == Mark(old(DirtyQueue), old(DirtySet), owner)
    {
      MarkKeepsCovered(DirtyQueue, DirtySet, owner);
      if !ShouldIndex(owner) {
        return;
      }
      if owner.value !in DirtySet {
        DirtySet := DirtySet + {owner.value};
        DirtyQueue := DirtyQueue + [owner.value];
      }
    }

    method MarkDirty(owner: Option<ActorRef>)
      requires Valid()
      modifies this
      ensures Valid()
      ensures (DirtyQueue, DirtySet) == Mark(old(DirtyQueue), old(DirtySet), owner)
    {
      MarkKeepsCovered(DirtyQueue, DirtySet, owner);
      if !ShouldIndex(owner) {
        return;
      }
      if owner.value !in DirtySet {
        DirtySet := DirtySet + {owner.value};
        DirtyQueue := DirtyQueue + [owner.value];
      }
    }

    /** `Unregister`: removes an indexed actor from the world's octree (by
        its cached box) and, when it has a root component, from the dirty
        set. */
    method Unregister(owner: Option<ActorRef>, tree: Option<Octree.FOctree>) returns (newTree: Option<Octree.FOctree>)
      requires Valid() && TreeValid(tree)
      modifies this
      ensures Valid() && TreeValid(newTree)
      ensures DirtyQueue == old(DirtyQueue) && DirtySet == Forget(old(DirtySet), owner)
      ensures newTree == if ShouldIndex(owner) && owner.value.InWorld && tree.Some?
        then Some(Octree.RemoveCached(tree.value, owner.value.Id)) else tree
    {
      newTree := tree;
      if !ShouldIndex(owner) {
        return;
      }
      var a := owner.value;
      if a.InWorld && tree.Some? {
        newTree := Some(Octree.RemoveCached(tree.value, a.Id));
      }
      if a.HasRootComponent {
        DirtySet := DirtySet - {a};
      }
    }

    /** One turn of `Update`'s loop: pops the front entry and, when its
        actor was still dirty, cleans it and updates it in the octree. */
    method PopFront(tree: Option<Octree.FOctree>, current: Octree.ActorId -> Bounds.FBound)
      returns (newTree: Option<Octree.FOctree>, counted: bool)
      requires DirtyQueue != [] && TreeValid(tree)
      modifies this
      ensures TreeValid(newTree)
      ensures DirtyQueue == old(DirtyQueue)[1..] && DirtySet == old(DirtySet) - {old(DirtyQueue)[0]}
      ensures counted == (old(DirtyQueue)[0] in old(DirtySet))
      ensures newTree == if counted then UpdateOne(tree, old(DirtyQueue)[0], current) else tree
    {
      var a := DirtyQueue[0];
      DirtyQueue := DirtyQueue[1..];
      newTree := tree;
      counted := a in DirtySet;
      if !counted {
        return;
      }
      DirtySet := DirtySet - {a};
      newTree := UpdateOne(tree, a, current);
    }

    /** `Update`: processes dirty actors in queue order, at most `budget` of
        them, updating each one's entry in the world's octree. */
    method Update(deltaTime: real, budget: nat, tree: Option<Octree.FOctree>, current: Octree.ActorId -> Bounds.FBound)
      returns (newTree: Option<Octree.FOctree>)
      requires Valid() && TreeValid(tree)
      modifies this
      ensures Valid() && TreeValid(newTree)
      ensures var r := Drain(old(DirtyQueue), old(DirtySet), budget);
        DirtyQueue == r.0 && DirtySet == r.1 && newTree == UpdateAll(tree, r.2, current)
    {
      ghost var done: seq<ActorRef> := [];
      ghost var total := Drain(DirtyQueue, DirtySet, budget);
      var processed: nat := 0;
      newTree := tree;
      assert [] + total.2 == total.2;
      while DirtyQueue != [] && processed < budget
        invariant processed <= budget && processed == |done|
        invariant TreeValid(newTree) && newTree == UpdateAll(tree, done, current)
        invariant Drain(DirtyQueue, DirtySet, budget - processed).0 == total.0
        invariant Drain(DirtyQueue, DirtySet, budget - processed).1 == total.1
        invariant done + Drain(DirtyQueue, DirtySet, budget - processed).2 == total.2
        decreases |DirtyQueue|
      {
        ghost var q, d, left := DirtyQueue, DirtySet, budget - processed;
        var counted;
        newTree, counted := PopFront(newTree, current);
        DrainAdvance(q, d, left, done, total);
        if counted {
          UpdateAllSnoc(tree, done, q[0], current);
          processed := processed + 1;
          done := done + [q[0]];
        }
      }
      DrainEnd(DirtyQueue, DirtySet, budget - processed, done, total);
      DrainKeepsCovered(old(DirtyQueue), old(DirtySet), budget);
    }
  }
}
