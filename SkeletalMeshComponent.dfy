/** The skeletal mesh component's bone pose and ragdoll bookkeeping
    (Mundi/Source/Runtime/Engine/Components/SkeletalMeshComponent.cpp):
    component-space pose from local pose, the body parent table built from
    the skeleton and the physics asset, body lookup by bone name, the
    physics-asset path choice, the simulate switch and the physics teardown.

    Transforms are kept symbolic: `GetWorldTransform` is a `Composed` node,
    so the model records which transforms are combined in which order, not
    the matrix arithmetic. A physics asset is the list of its body setups,
    each either missing or naming its bone. Body and constraint instances
    are opaque handles. */
module SkeletalMeshComponent {
  import opened Text
  import opened Skeleton

  datatype FTransform = Transform(Id: nat) | Composed(Parent: FTransform, Local: FTransform)

  /** `FTransform::GetWorldTransform`: `local` expressed in the space of
      `parent`. */
  function GetWorldTransform(parent: FTransform, local: FTransform): (r: FTransform)
    ensures r.Composed? && r.Parent == parent && r.Local == local
  {
    Composed(parent, local)
  }

  /** The component-space transform of bone `b`: its local transform for a
      root, otherwise its parent's component-space transform composed with
      its local transform. */
  function ComponentSpace(bones: seq<FBone>, local: seq<FTransform>, b: nat): FTransform
    requires WellFormedBones(bones) && b < |bones| <= |local|
    decreases b
  {
    if bones[b].ParentIndex == -1 then local[b]
    else GetWorldTransform(ComponentSpace(bones, local, bones[b].ParentIndex), local[b])
  }

  /** The local transforms along a chain (bone first, root last), composed
      from the root down. */
  function ComposeChain(local: seq<FTransform>, c: seq<nat>): FTransform
    requires |c| >= 1 && forall k :: 0 <= k < |c| ==> c[k] < |local|
  {
    if |c| == 1 then local[c[0]] else Composed(ComposeChain(local, c[1..]), local[c[0]])
  }

  /** A bone's component-space transform is the composition of the local
      transforms of every bone from the root down to it, and of no other. */
  lemma {:induction false} ComponentSpaceComposesChain(bones: seq<FBone>, local: seq<FTransform>, b: nat)
    requires WellFormedBones(bones) && b < |bones| <= |local|
    ensures |Chain(bones, b)| >= 1
    ensures ComponentSpace(bones, local, b) == ComposeChain(local, Chain(bones, b))
    decreases b
  {
    var p := bones[b].ParentIndex;
    var c := Chain(bones, b);
    assert c == [b] + Chain(bones, p);
    if p != -1 {
      ComponentSpaceComposesChain(bones, local, p);
      assert c[1..] == Chain(bones, p);
    } else {
      assert Chain(bones, p) == [];
    }
  }

  /** The skeletal mesh asset as the component sees it: its skeleton, when
      it has one, and the physics-asset path stored with it. */
  datatype USkeletalMesh = USkeletalMesh(Skeleton: Option<FSkeleton>, PhysicsAssetPath: string)

  class USkeletalMeshComponent {
    var SkeletalMesh: Option<USkeletalMesh>
    /** The body setups of the physics asset, each the name of its bone or
        missing. */
    var PhysicsAsset: Option<seq<Option<string>>>
    var PhysicsAssetPathOverride: string
    var Bodies: seq<nat>
    var Constraints: seq<nat>
    var BodyBoneIndices: seq<int>
    var BodyParentIndices: seq<int>
    var bSimulatePhysics: bool
    var CurrentLocalSpacePose: seq<FTransform>
    var CurrentComponentSpacePose: seq<FTransform>

    constructor (mesh: Option<USkeletalMesh>)
      ensures SkeletalMesh == mesh && PhysicsAsset == None && PhysicsAssetPathOverride == ""
      ensures Bodies == [] && Constraints == [] && BodyBoneIndices == [] && BodyParentIndices == []
      ensures !bSimulatePhysics
      ensures CurrentLocalSpacePose == [] && CurrentComponentSpacePose == []
    {
      SkeletalMesh := mesh;
      PhysicsAsset := None;
      PhysicsAssetPathOverride := "";
      Bodies := [];
      Constraints := [];
      BodyBoneIndices := [];
      BodyParentIndices := [];
      bSimulatePhysics := false;
      CurrentLocalSpacePose := [];
      CurrentComponentSpacePose := [];
    }

    /** The mesh's skeleton, when there is a mesh and it has one. */
    function Skel(): Option<FSkeleton>
      reads this`SkeletalMesh
    {
      if SkeletalMesh.Some? then SkeletalMesh.value.Skeleton else None
    }

    /** Recomputes the component-space pose of every bone from the local
        pose; slots past the last bone keep their value. */
    method UpdateComponentSpaceTransforms()
      requires Skel().Some? && WellFormedBones(Skel().value.Bones)
      requires |Skel().value.Bones| <= |CurrentLocalSpacePose| && |Skel().value.Bones| <= |CurrentComponentSpacePose|
      modifies this
      ensures SkeletalMesh == old(SkeletalMesh) && CurrentLocalSpacePose == old(CurrentLocalSpacePose)
      ensures PhysicsAsset == old(PhysicsAsset) && Bodies == old(Bodies) && BodyParentIndices == old(BodyParentIndices)
      ensures var bones := Skel().value.Bones;
              |CurrentComponentSpacePose| == |old(CurrentComponentSpacePose)| &&
              (forall b :: 0 <= b < |bones| ==> CurrentComponentSpacePose[b] == ComponentSpace(bones, CurrentLocalSpacePose, b)) &&
              forall b :: |bones| <= b < |CurrentComponentSpacePose| ==> CurrentComponentSpacePose[b] == old(CurrentComponentSpacePose)[b]
    {
      var bones := Skel().value.Bones;
      var local := CurrentLocalSpacePose;
      var pose := CurrentComponentSpacePose;
      var b := 0;
      while b < |bones|
        invariant 0 <= b <= |bones|
        invariant |pose| == |CurrentComponentSpacePose|
        invariant forall k :: 0 <= k < b ==> pose[k] == ComponentSpace(bones, local, k)
        invariant forall k :: b <= k < |pose| ==> pose[k] == CurrentComponentSpacePose[k]
      {
        var parent := bones[b].ParentIndex;
        if parent == -1 {
          pose := pose[b := local[b]];
        } else {
          pose := pose[b := GetWorldTransform(pose[parent], local[b])];
        }
        b := b + 1;
      }
      CurrentComponentSpacePose := pose;
    }

    /** Fills `BodyParentIndices`, one entry per body. Without a skeleton or
        a physics asset the bodies form a chain in list order; otherwise
        each body's parent is the body of its bone's nearest strict
        ancestor that has one (`Skeleton.MappedParentIsNearestAncestor`), or -1. */
    method SetupBoneHierarchy()
      requires |BodyBoneIndices| >= |Bodies|
      requires Skel().Some? ==> WellFormedBones(Skel().value.Bones) &&
                                forall i :: 0 <= i < |BodyBoneIndices| ==> BodyBoneIndices[i] < |Skel().value.Bones|
      modifies this
      ensures SkeletalMesh == old(SkeletalMesh) && PhysicsAsset == old(PhysicsAsset)
      ensures Bodies == old(Bodies) && BodyBoneIndices == old(BodyBoneIndices) && Constraints == old(Constraints)
      ensures bSimulatePhysics == old(bSimulatePhysics) && CurrentComponentSpacePose == old(CurrentComponentSpacePose)
      ensures |BodyParentIndices| == |Bodies|
      ensures Skel().None? || PhysicsAsset.None? ==>
                forall i :: 0 <= i < |Bodies| ==> BodyParentIndices[i] == i - 1
      ensures Skel().Some? && PhysicsAsset.Some? ==>
                forall i :: 0 <= i < |Bodies| ==>
                  BodyParentIndices[i] == MappedParentOf(Skel().value.Bones, LastIndexMap(PhysicsAsset.value), BodyBoneIndices[i])
    {
      var n := |Bodies|;
      var parents: seq<int> := [];
      if Skel().None? || PhysicsAsset.None? {
        var i := 0;
        while i < n
          modifies {}
          invariant 0 <= i <= n && |parents| == i
          invariant forall k :: 0 <= k < i ==> parents[k] == k - 1
        {
          parents := parents + [if i > 0 then i - 1 else -1];
          i := i + 1;
        }
        BodyParentIndices := parents;
        return;
      }
      var bones := Skel().value.Bones;
      var bodyIndex := BuildLastIndexMap(PhysicsAsset.value);
      var boneIndices := BodyBoneIndices;
      var i := 0;
      while i < n
        modifies {}
        invariant 0 <= i <= n && |parents| == i
        invariant forall k :: 0 <= k < i ==> parents[k] == MappedParentOf(bones, bodyIndex, boneIndices[k])
      {
        var parent := -1;
        var bone := boneIndices[i];
        if bone >= 0 {
          parent := FindMappedAncestor(bones, bodyIndex, bones[bone].ParentIndex);
        }
        parents := parents + [parent];
        i := i + 1;
      }
      BodyParentIndices := parents;
    }

    /** Index of the first body setup of the asset for bone `name`; -1 when
        there is no asset or no setup names that bone. */
    method FindBodyIndex(name: string) returns (r: int)
      ensures PhysicsAsset.None? ==> r == -1
      ensures PhysicsAsset.Some? ==>
                var setups := PhysicsAsset.value;
                (r == -1 <==> forall i :: 0 <= i < |setups| ==> setups[i] != Some(name)) &&
                (r != -1 ==> 0 <= r < |setups| && setups[r] == Some(name) &&
                             forall i :: 0 <= i < r ==> setups[i] != Some(name))
    {
      if PhysicsAsset.None? {
        return -1;
      }
      var setups := PhysicsAsset.value;
      var i := 0;
      while i < |setups|
        invariant 0 <= i <= |setups|
        invariant forall k :: 0 <= k < i ==> setups[k] != Some(name)
      {
        if setups[i] == Some(name) {
          return i;
        }
        i := i + 1;
      }
      r := -1;
    }

    /** The physics asset path in use: the component's override when set,
        else the mesh's own path, else empty. */
    function GetEffectivePhysicsAssetPath(): (r: string)
      reads this
      ensures PhysicsAssetPathOverride != "" ==> r == PhysicsAssetPathOverride
      ensures PhysicsAssetPathOverride == "" && SkeletalMesh.Some? ==> r == SkeletalMesh.value.PhysicsAssetPath
      ensures PhysicsAssetPathOverride == "" && SkeletalMesh.None? ==> r == ""
    {
      if PhysicsAssetPathOverride != "" then PhysicsAssetPathOverride
      else if SkeletalMesh.Some? then SkeletalMesh.value.PhysicsAssetPath
      else ""
    }

    /** Switches simulation on or off; switching on is refused while there
        are no bodies. */
    method SetSimulatePhysics(bEnable: bool)
      modifies this
      ensures bEnable && |Bodies| == 0 ==> bSimulatePhysics == old(bSimulatePhysics)
      ensures !(bEnable && |Bodies| == 0) ==> bSimulatePhysics == bEnable
      ensures bSimulatePhysics ==> old(bSimulatePhysics) || |Bodies| > 0
      ensures Bodies == old(Bodies) && Constraints == old(Constraints) && PhysicsAsset == old(PhysicsAsset)
      ensures BodyBoneIndices == old(BodyBoneIndices) && BodyParentIndices == old(BodyParentIndices)
      ensures SkeletalMesh == old(SkeletalMesh) && PhysicsAssetPathOverride == old(PhysicsAssetPathOverride)
      ensures CurrentLocalSpacePose == old(CurrentLocalSpacePose) && CurrentComponentSpacePose == old(CurrentComponentSpacePose)
    {
      if bEnable && |Bodies| == 0 {
        return;
      }
      bSimulatePhysics := bEnable;
    }

    /** Releases the ragdoll: constraints, bodies and both index tables
        become empty and the asset is dropped; whether simulation is wanted
        is kept. */
    method DestroyPhysicsState()
      modifies this
      ensures Constraints == [] && Bodies == [] && BodyBoneIndices == [] && BodyParentIndices == []
      ensures PhysicsAsset == None
      ensures bSimulatePhysics == old(bSimulatePhysics)
      ensures SkeletalMesh == old(SkeletalMesh) && PhysicsAssetPathOverride == old(PhysicsAssetPathOverride)
      ensures CurrentLocalSpacePose == old(CurrentLocalSpacePose) && CurrentComponentSpacePose == old(CurrentComponentSpacePose)
    {
      Constraints := [];
      Bodies := [];
      BodyBoneIndices := [];
      BodyParentIndices := [];
      PhysicsAsset := None;
    }
  }
}
