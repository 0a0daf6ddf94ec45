/** An actor's bookkeeping of its components and its transform
    (TL2/Actor.cpp): the owned components, the scene components in the
    order they were added, the root component, the destroy guard, and the
    transform setters that mark the world partition dirty only when the
    value changes.

    Components are handles; whether a component is a scene component (the
    `Cast<USceneComponent>` test) is part of the handle. Each component's
    own transform, the one set through it, is held in one map here; the
    root has no attach parent, so its own transform is the actor's world
    transform. The attachment hierarchy, through which children follow
    the root in the world, is not part of this model. Registration,
    ownership back-pointers, `EndPlay` and the final deletion have no
    effect on this state and are left out. */
module Actor {
  import opened Text
  import opened Sequences
  import World

  datatype Component = Component(Id: nat, IsScene: bool)

  datatype FVector = FVector(X: real, Y: real, Z: real)
  datatype FQuat = FQuat(X: real, Y: real, Z: real, W: real)
  datatype FTransform = FTransform(Rotation: FQuat, Translation: FVector, Scale3D: FVector)

  /** `FVector()`, `FQuat()` and `FTransform()`: zero, the identity
      rotation, and the identity transform. */
  const ZeroVector := FVector(0.0, 0.0, 0.0)
  const UnitScale := FVector(1.0, 1.0, 1.0)
  const IdentityQuat := FQuat(0.0, 0.0, 0.0, 1.0)
  const IdentityTransform := FTransform(IdentityQuat, ZeroVector, UnitScale)

  /** The state the actor's operations read and change. `DirtyMarks`
      counts the times the partition manager was told the actor moved. */
  datatype ActorState = ActorState(
    Owned: set<Component>,
    Scene: seq<Component>,
    Root: Option<Component>,
    Transforms: map<Component, FTransform>,
    DirtyMarks: nat,
    PendingDestroy: bool)

  /** What `Destroy` did. */
  datatype DestroyOutcome = AlreadyPending | HandedToWorld | DestroyedAlone

  /** The scene components are listed once each, are owned, and every
      owned scene component is listed; the root, when set, is listed. */
  ghost predicate Valid(s: ActorState)
  {
    Distinct(s.Scene) &&
    (forall i :: 0 <= i < |s.Scene| ==> s.Scene[i] in s.Owned && s.Scene[i].IsScene) &&
    (forall c :: c in s.Owned && c.IsScene ==> c in s.Scene) &&
    (s.Root.Some? ==> s.Root.value in s.Scene)
  }


  /** `SetRootComponent`: the same root again changes nothing; otherwise the
      root is replaced. */
  function SetRoot(s: ActorState, root: Option<Component>): (r: ActorState)
  {
    if s.Root == root then s else s.(Root := root)
  }

  /** `AddOwnedComponent`: a null or already owned component changes
      nothing; otherwise it becomes owned, a scene component is listed once
      and becomes the root when there is none. */
  function AddOwned(s: ActorState, c: Option<Component>): (r: ActorState)
    ensures c.None? || c.value in s.Owned ==> r == s
    ensures c.Some? ==> r.Owned == s.Owned + {c.value}
    ensures c.Some? && c.value !in s.Owned && c.value.IsScene ==>
              c.value in r.Scene && (s.Root.None? ==> r.Root == c)
    ensures s.Root.Some? ==> r.Root == s.Root
    ensures c.Some? && !c.value.IsScene ==> r.Scene == s.Scene && r.Root == s.Root
    ensures r.Transforms == s.Transforms && r.DirtyMarks == s.DirtyMarks && r.PendingDestroy == s.PendingDestroy
  {
    if c.None? || c.value in s.Owned then s
    else
      var owned := s.(Owned := s.Owned + {c.value});
      if !c.value.IsScene then owned
      else
        var listed := if c.value in owned.Scene then owned else owned.(Scene := owned.Scene + [c.value]);
        if listed.Root.None? then SetRoot(listed, c) else listed
  }

  /** `RemoveOwnedComponent`: a null or unowned component changes nothing;
      otherwise it is no longer owned, no longer listed, and no longer the
      root. */
  function RemoveOwned(s: ActorState, c: Option<Component>): (r: ActorState)
    ensures c.None? || c.value !in s.Owned ==> r == s
    ensures c.Some? && c.value in s.Owned ==> r.Owned == s.Owned - {c.value}
    ensures c.Some? && c.value in s.Owned && c.value.IsScene ==>
              forall x :: x in r.Scene <==> x in s.Scene && x != c.value
    ensures c.Some? && !c.value.IsScene ==> r.Scene == s.Scene
    ensures c.Some? && c.value in s.Owned && s.Root == c && c.value.IsScene ==> r.Root.None?
    ensures s.Root != c ==> r.Root == s.Root
    ensures r.Transforms == s.Transforms && r.DirtyMarks == s.DirtyMarks && r.PendingDestroy == s.PendingDestroy
  {
    if c.None? || c.value !in s.Owned then s
    else
      var unowned := s.(Owned := s.Owned - {c.value});
      if !c.value.IsScene then unowned
      else
        var unrooted := if unowned.Root == c then unowned.(Root := None) else unowned;
        unrooted.(Scene := RemoveAll(unrooted.Scene, c.value))
  }

  /** Adding a component keeps the actor consistent. */
  lemma AddOwnedKeepsValid(s: ActorState, c: Option<Component>)
    requires Valid(s)
    ensures Valid(AddOwned(s, c))
  {
    if c.Some? && c.value !in s.Owned && c.value.IsScene {
      assert c.value !in s.Scene;
      var r := AddOwned(s, c);
      assert r.Scene == s.Scene + [c.value];
      forall i, j | 0 <= i < j < |r.Scene| ensures r.Scene[i] != r.Scene[j] {
        if j == |s.Scene| {
          assert r.Scene[i] == s.Scene[i];
        }
      }
    }
  }

  /** Removing a component keeps the actor consistent. */
  lemma RemoveOwnedKeepsValid(s: ActorState, c: Option<Component>)
    requires Valid(s)
    ensures Valid(RemoveOwned(s, c))
  {
    if c.Some? && c.value in s.Owned {
      var r := RemoveOwned(s, c);
      if c.value.IsScene {
        RemoveAllKeepsDistinct(s.Scene, c.value);
        assert r.Scene == RemoveAll(s.Scene, c.value);
        forall i | 0 <= i < |r.Scene| ensures r.Scene[i] in r.Owned && r.Scene[i].IsScene {
          assert r.Scene[i] in r.Scene;
        }
        forall x | x in r.Owned && x.IsScene ensures x in r.Scene {
        }
        if r.Root.Some? {
          assert r.Root == s.Root;
        }
      }
    }
  }

  /** Adding a component the actor did not own and removing it again gives
      the actor back exactly: owned set, scene list and root. */
  lemma AddThenRemove(s: ActorState, c: Component)
    requires Valid(s) && c !in s.Owned
    ensures RemoveOwned(AddOwned(s, Some(c)), Some(c)) == s
  {
    if c.IsScene {
      assert c !in s.Scene;
      RemoveAllOfAppended(s.Scene, c);
      assert s.Owned + {c} - {c} == s.Owned;
      if s.Root.Some? {
        assert s.Root.value in s.Scene;
      }
    } else {
      assert s.Owned + {c} - {c} == s.Owned;
    }
  }

  /** Adding the same component twice is adding it once. */
  lemma AddOwnedIdempotent(s: ActorState, c: Option<Component>)
    ensures AddOwned(AddOwned(s, c), c) == AddOwned(s, c)
  {
  }

  /** The own transform of a component; one that never had one set has
      the identity transform. */
  function TransformOf(s: ActorState, c: Component): FTransform
  {
    if c in s.Transforms then s.Transforms[c] else IdentityTransform
  }

  /** `GetActorTransform`: the root's world transform, the identity without
      a root. */
  function ActorTransform(s: ActorState): FTransform
  {
    if s.Root.Some? then TransformOf(s, s.Root.value) else IdentityTransform
  }

  /** `GetActorLocation`, `GetActorRotation` and `GetActorScale`, with their
      fallbacks zero, the identity rotation and unit scale. */
  function ActorLocation(s: ActorState): FVector
  {
    if s.Root.Some? then TransformOf(s, s.Root.value).Translation else ZeroVector
  }

  function ActorRotation(s: ActorState): FQuat
  {
    if s.Root.Some? then TransformOf(s, s.Root.value).Rotation else IdentityQuat
  }

  function ActorScale(s: ActorState): FVector
  {
    if s.Root.Some? then TransformOf(s, s.Root.value).Scale3D else UnitScale
  }

  /** The root's own transform replaced by `t`, and the partition told
      when the actor can reach it. */
  function MoveRoot(s: ActorState, t: FTransform, partition: bool): (r: ActorState)
    requires s.Root.Some?
  {
    s.(Transforms := s.Transforms[s.Root.value := t],
       DirtyMarks := if partition then s.DirtyMarks + 1 else s.DirtyMarks)
  }

  /** The four transform setters: nothing without a root or when the new
      value equals the old one; otherwise the root gets the value and the
      partition is marked dirty (`partition` says whether the actor has a
      world with a partition manager). */
  function WithTransform(s: ActorState, t: FTransform, partition: bool): (r: ActorState)
  {
    if s.Root.None? || ActorTransform(s) == t then s else MoveRoot(s, t, partition)
  }

  function WithLocation(s: ActorState, v: FVector, partition: bool): (r: ActorState)
  {
    if s.Root.None? || ActorLocation(s) == v then s
    else MoveRoot(s, ActorTransform(s).(Translation := v), partition)
  }

  function WithRotation(s: ActorState, q: FQuat, partition: bool): (r: ActorState)
  {
    if s.Root.None? || ActorRotation(s) == q then s
    else MoveRoot(s, ActorTransform(s).(Rotation := q), partition)
  }

  function WithScale(s: ActorState, v: FVector, partition: bool): (r: ActorState)
  {
    if s.Root.None? || ActorScale(s) == v then s
    else MoveRoot(s, ActorTransform(s).(Scale3D := v), partition)
  }

  /** What a setter may change: only the root's own transform and the
      dirty count. Attached children's own transforms stay as they were. */
  predicate OnlyRootMoved(s: ActorState, r: ActorState)
  {
    r.Owned == s.Owned && r.Scene == s.Scene && r.Root == s.Root && r.PendingDestroy == s.PendingDestroy &&
    (forall c :: c in s.Transforms && (s.Root.None? || c != s.Root.value) ==> c in r.Transforms && r.Transforms[c] == s.Transforms[c]) &&
    (forall c :: c in r.Transforms && (s.Root.None? || c != s.Root.value) ==> c in s.Transforms)
  }

  /** With a root, `SetActorTransform` leaves the actor at the new
      transform; the partition is marked dirty exactly when the transform
      differed and the partition is reachable; without a root nothing
      changes; and no other component's own transform changes. */
  lemma SetTransformSetsAndMarksOnChange(s: ActorState, t: FTransform, partition: bool)
    ensures var r := WithTransform(s, t, partition);
            OnlyRootMoved(s, r) && (s.Root.Some? ==> ActorTransform(r) == t) &&
            r.DirtyMarks == s.DirtyMarks + (if s.Root.Some? && ActorTransform(s) != t && partition then 1 else 0)
  {
  }

  /** The same for `SetActorLocation`, which also keeps the rotation and the
      scale. */
  lemma SetLocationSetsAndMarksOnChange(s: ActorState, v: FVector, partition: bool)
    ensures var r := WithLocation(s, v, partition);
            OnlyRootMoved(s, r) && (s.Root.Some? ==> ActorLocation(r) == v) &&
            ActorRotation(r) == ActorRotation(s) && ActorScale(r) == ActorScale(s) &&
            r.DirtyMarks == s.DirtyMarks + (if s.Root.Some? && ActorLocation(s) != v && partition then 1 else 0)
  {
  }

  /** The same for `SetActorRotation`, which keeps the location and the
      scale. */
  lemma SetRotationSetsAndMarksOnChange(s: ActorState, q: FQuat, partition: bool)
    ensures var r := WithRotation(s, q, partition);
            OnlyRootMoved(s, r) && (s.Root.Some? ==> ActorRotation(r) == q) &&
            ActorLocation(r) == ActorLocation(s) && ActorScale(r) == ActorScale(s) &&
            r.DirtyMarks == s.DirtyMarks + (if s.Root.Some? && ActorRotation(s) != q && partition then 1 else 0)
  {
  }

  /** The same for `SetActorScale`, which keeps the location and the
      rotation. */
  lemma SetScaleSetsAndMarksOnChange(s: ActorState, v: FVector, partition: bool)
    ensures var r := WithScale(s, v, partition);
            OnlyRootMoved(s, r) && (s.Root.Some? ==> ActorScale(r) == v) &&
            ActorLocation(r) == ActorLocation(s) && ActorRotation(r) == ActorRotation(s) &&
            r.DirtyMarks == s.DirtyMarks + (if s.Root.Some? && ActorScale(s) != v && partition then 1 else 0)
  {
  }

  /** Setting the same value twice marks the partition dirty once: the
      second call changes nothing. */
  lemma SettersIdempotent(s: ActorState, t: FTransform, v: FVector, q: FQuat, partition: bool)
    ensures var r := WithTransform(s, t, partition); WithTransform(r, t, partition) == r
    ensures var r := WithLocation(s, v, partition); WithLocation(r, v, partition) == r
    ensures var r := WithRotation(s, q, partition); WithRotation(r, q, partition) == r
    ensures var r := WithScale(s, v, partition); WithScale(r, v, partition) == r
  {
  }

  /** `Destroy`: a second call on an actor already pending destruction does
      nothing; otherwise the actor is marked pending and, with a world, the
      world destroys it; without one it drops all its components and
      clears its root. */
  function AfterDestroy(s: ActorState, hasWorld: bool): (result: (ActorState, DestroyOutcome))
    ensures s.PendingDestroy <==> result.1 == AlreadyPending
    ensures result.1 == AlreadyPending ==> result.0 == s
    ensures result.0.PendingDestroy
    ensures result.1 == HandedToWorld <==> !s.PendingDestroy && hasWorld
    ensures result.1 == DestroyedAlone ==>
              result.0.Owned == {} && result.0.Scene == [] && result.0.Root.None?
  {
    if s.PendingDestroy then (s, AlreadyPending)
    else
      var pending := s.(PendingDestroy := true);
      if hasWorld then (pending, HandedToWorld)
      else (pending.(Owned := {}, Scene := [], Root := None), DestroyedAlone)
  }

  /** Destroying twice is destroying once: the second call is refused by
      the guard and leaves the state as the first call left it. */
  lemma DestroyTwice(s: ActorState, hasWorld: bool)
    ensures var (once, _) := AfterDestroy(s, hasWorld);
            AfterDestroy(once, hasWorld) == (once, AlreadyPending)
  {
  }

  /** Destroying keeps the actor consistent. */
  lemma DestroyKeepsValid(s: ActorState, hasWorld: bool)
    requires Valid(s)
    ensures Valid(AfterDestroy(s, hasWorld).0)
  {
  }

  class AActor {
    const Id: nat
    var OwnedComponents: set<Component>
    var SceneComponents: seq<Component>
    var RootComponent: Option<Component>
    var ComponentTransforms: map<Component, FTransform>
    var PartitionDirtyMarks: nat
    var PendingDestroy: bool
    /** The world the actor lives in, and whether that world has a
        partition manager. */
    var OwningWorld: World.UWorld?
    var HasPartitionManager: bool

    function State(): ActorState
      reads this
    {
      ActorState(OwnedComponents, SceneComponents, RootComponent, ComponentTransforms,
                 PartitionDirtyMarks, PendingDestroy)
    }

    /** An actor with no component yet; the default components the source's
        constructor creates are not part of this model. */
    constructor (id: nat, world: World.UWorld?, hasPartitionManager: bool)
      ensures Id == id && OwningWorld == world && HasPartitionManager == hasPartitionManager
      ensures State() == ActorState({}, [], None, map[], 0, false)
      ensures Valid(State())
    {
      Id := id;
      OwnedComponents := {};
      SceneComponents := [];
      RootComponent := None;
      ComponentTransforms := map[];
      PartitionDirtyMarks := 0;
      PendingDestroy := false;
      OwningWorld := world;
      HasPartitionManager := hasPartitionManager;
    }

    method SetRootComponent(root: Option<Component>)
      modifies this`RootComponent
      ensures State() == SetRoot(old(State()), root)
    {
      if RootComponent == root {
        return;
      }
      RootComponent := root;
    }

    method AddOwnedComponent(component: Option<Component>)
      modifies this`OwnedComponents, this`SceneComponents, this`RootComponent
      ensures State() == AddOwned(old(State()), component)
    {
      if component.None? {
        return;
      }
      var c := component.value;
      if c in OwnedComponents {
        return;
      }
      OwnedComponents := OwnedComponents + {c};
      if c.IsScene {
        if c !in SceneComponents {
          SceneComponents := SceneComponents + [c];
        }
        if RootComponent.None? {
          SetRootComponent(Some(c));
        }
      }
    }

    method RemoveOwnedComponent(component: Option<Component>)
      modifies this`OwnedComponents, this`SceneComponents, this`RootComponent
      ensures State() == RemoveOwned(old(State()), component)
    {
      if component.None? {
        return;
      }
      var c := component.value;
      if c !in OwnedComponents {
        return;
      }
      OwnedComponents := OwnedComponents - {c};
      if c.IsScene {
        if RootComponent == Some(c) {
          RootComponent := None;
        }
        SceneComponents := RemoveAll(SceneComponents, c);
      }
    }

    /** `ClearSceneComponentCaches`. */
    method ClearSceneComponentCaches()
      modifies this`SceneComponents, this`RootComponent
      ensures SceneComponents == [] && RootComponent.None?
    {
      SceneComponents := [];
      RootComponent := None;
    }

    /** `MarkPartitionDirty`: the partition manager hears of the actor only
        when there is a world with one. */
    method MarkPartitionDirty()
      modifies this`PartitionDirtyMarks
      ensures PartitionDirtyMarks ==
                if OwningWorld != null && HasPartitionManager then old(PartitionDirtyMarks) + 1
                else old(PartitionDirtyMarks)
    {
      if OwningWorld != null && HasPartitionManager {
        PartitionDirtyMarks := PartitionDirtyMarks + 1;
      }
    }

    /** `Destroy`, with the world's `DestroyActor` taking the actor out of
        the world's list when there is a world. */
    method Destroy() returns (outcome: DestroyOutcome)
      modifies this, OwningWorld
      ensures OwningWorld == old(OwningWorld)
      ensures (State(), outcome) == AfterDestroy(old(State()), old(OwningWorld) != null)
      ensures outcome != HandedToWorld && OwningWorld != null ==> OwningWorld.Actors == old(OwningWorld.Actors)
      ensures outcome == HandedToWorld ==>
                multiset(OwningWorld.Actors) == multiset(old(OwningWorld.Actors)) - multiset{Id}
    {
      if PendingDestroy {
        return AlreadyPending;
      }
      PendingDestroy := true;
      if OwningWorld != null {
        var _ := OwningWorld.DestroyActor(Some(Id));
        return HandedToWorld;
      }
      OwnedComponents := {};
      ClearSceneComponentCaches();
      return DestroyedAlone;
    }

    method SetActorTransform(t: FTransform)
      modifies this`ComponentTransforms, this`PartitionDirtyMarks
      ensures State() == WithTransform(old(State()), t, OwningWorld != null && HasPartitionManager)
    {
      if RootComponent.None? {
        return;
      }
      var root := RootComponent.value;
      var oldTransform := TransformOf(State(), root);
      if oldTransform != t {
        ComponentTransforms := ComponentTransforms[root := t];
        MarkPartitionDirty();
      }
    }

    method SetActorLocation(v: FVector)
      modifies this`ComponentTransforms, this`PartitionDirtyMarks
      ensures State() == WithLocation(old(State()), v, OwningWorld != null && HasPartitionManager)
    {
      if RootComponent.None? {
        return;
      }
      var root := RootComponent.value;
      var oldTransform := TransformOf(State(), root);
      if oldTransform.Translation != v {
        ComponentTransforms := ComponentTransforms[root := oldTransform.(Translation := v)];
        MarkPartitionDirty();
      }
    }

    method SetActorRotation(q: FQuat)
      modifies this`ComponentTransforms, this`PartitionDirtyMarks
      ensures State() == WithRotation(old(State()), q, OwningWorld != null && HasPartitionManager)
    {
      if RootComponent.None? {
        return;
      }
      var root := RootComponent.value;
      var oldTransform := TransformOf(State(), root);
      if oldTransform.Rotation != q {
        ComponentTransforms := ComponentTransforms[root := oldTransform.(Rotation := q)];
        MarkPartitionDirty();
      }
    }

    method SetActorScale(v: FVector)
      modifies this`ComponentTransforms, this`PartitionDirtyMarks
      ensures State() == WithScale(old(State()), v, OwningWorld != null && HasPartitionManager)
    {
      if RootComponent.None? {
        return;
      }
      var root := RootComponent.value;
      var oldTransform := TransformOf(State(), root);
      if oldTransform.Scale3D != v {
        ComponentTransforms := ComponentTransforms[root := oldTransform.(Scale3D := v)];
        MarkPartitionDirty();
      }
    }
  }
}
