/** The ragdoll system's bookkeeping
    (Mundi/Source/Runtime/Engine/Physics/RagdollSystem.cpp): switching an
    instance's simulation on and off, the bone parent table built from the
    owning mesh's skeleton, removing a destroyed instance from the active
    list and choosing which instances are synced each frame.

    A ragdoll bone is its body setup (the bone name it carries, or missing),
    its parent index and whether it holds a PhysX body. The PhysX calls an
    instance makes on its bodies are recorded as a list of commands. */
module RagdollSystem {
  import opened Text
  import opened Sequences
  import opened Skeleton

  datatype FRagdollBone = FRagdollBone(BodySetup: Option<string>, ParentIndex: int, HasBody: bool)

  /** `FRagdollBone::GetBoneName`: the setup's bone name, or the empty name
      when the bone has no setup. */
  function GetBoneName(bone: FRagdollBone): (r: string)
    ensures bone.BodySetup.None? ==> r == ""
    ensures bone.BodySetup.Some? ==> r == bone.BodySetup.value
  {
    match bone.BodySetup
    case None => ""
    case Some(name) => name
  }

  /** What the instance asks of the PhysX body of bone `Bone`. */
  datatype BodyCommand = WakeUp(Bone: nat) | PutToSleep(Bone: nat)

  /** The commands sent to every bone that holds a body, in bone order:
      wake-ups when `wake`, otherwise requests to sleep. */
  function BodyCommands(bones: seq<FRagdollBone>, wake: bool): seq<BodyCommand>
  {
    if bones == [] then []
    else
      var i := |bones| - 1;
      BodyCommands(bones[..i], wake) +
      (if bones[i].HasBody then [if wake then WakeUp(i) else PutToSleep(i)] else [])
  }

  /** Exactly the bones with a body receive a command, each once, of the
      requested kind. */
  lemma {:induction false} BodyCommandsReachBodies(bones: seq<FRagdollBone>, wake: bool)
    ensures forall c :: c in BodyCommands(bones, wake) ==>
              c.Bone < |bones| && bones[c.Bone].HasBody && c.WakeUp? == wake
    ensures forall i :: 0 <= i < |bones| && bones[i].HasBody ==>
              (if wake then WakeUp(i) else PutToSleep(i)) in BodyCommands(bones, wake)
    decreases |bones|
  {
    if bones != [] {
      var i := |bones| - 1;
      var front := bones[..i];
      BodyCommandsReachBodies(front, wake);
      forall k | 0 <= k < i
        ensures bones[k] == front[k]
      {
      }
    }
  }

  class FRagdollInstance {
    var Bones: seq<FRagdollBone>
    var bIsActive: bool
    /** The skeleton reached through `UserData`, the component's mesh and
        the mesh's skeleton; missing when any link is missing. */
    var OwnerSkeleton: Option<FSkeleton>
    var BodyLog: seq<BodyCommand>

    constructor (bones: seq<FRagdollBone>, ownerSkeleton: Option<FSkeleton>)
      ensures Bones == bones && OwnerSkeleton == ownerSkeleton
      ensures !bIsActive && BodyLog == []
    {
      Bones := bones;
      OwnerSkeleton := ownerSkeleton;
      bIsActive := false;
      BodyLog := [];
    }

    /** Wakes every body and marks the instance active; an active instance
        is left exactly as it is, so a second call changes nothing. */
    method Activate()
      modifies this
      ensures bIsActive
      ensures old(bIsActive) ==> BodyLog == old(BodyLog)
      ensures !old(bIsActive) ==> BodyLog == old(BodyLog) + BodyCommands(Bones, true)
      ensures Bones == old(Bones) && OwnerSkeleton == old(OwnerSkeleton)
    {
      if bIsActive {
        return;
      }
      SendToBodies(true);
      bIsActive := true;
    }

    /** Puts every body to sleep and marks the instance inactive; an
        inactive instance is left exactly as it is. */
    method Deactivate()
      modifies this
      ensures !bIsActive
      ensures !old(bIsActive) ==> BodyLog == old(BodyLog)
      ensures old(bIsActive) ==> BodyLog == old(BodyLog) + BodyCommands(Bones, false)
      ensures Bones == old(Bones) && OwnerSkeleton == old(OwnerSkeleton)
    {
      if !bIsActive {
        return;
      }
      SendToBodies(false);
      bIsActive := false;
    }

    /** The loop over the bones shared by `Activate` and `Deactivate`. */
    method SendToBodies(wake: bool)
      modifies this`BodyLog
      ensures BodyLog == old(BodyLog) + BodyCommands(Bones, wake)
    {
      var log := BodyLog;
      var i := 0;
      while i < |Bones|
        invariant 0 <= i <= |Bones|
        invariant log == BodyLog + BodyCommands(Bones[..i], wake)
      {
        assert Bones[..i + 1][..i] == Bones[..i];
        if Bones[i].HasBody {
          log := log + [if wake then WakeUp(i) else PutToSleep(i)];
        }
        i := i + 1;
      }
      assert Bones[..i] == Bones;
      BodyLog := log;
    }
  }

  /** The ragdoll bones' names in bone order, each present (a bone without
      a setup has the empty name). */
  function RagdollNames(bones: seq<FRagdollBone>): (r: seq<Option<string>>)
    ensures |r| == |bones|
    ensures forall i :: 0 <= i < |bones| ==> r[i] == Some(GetBoneName(bones[i]))
  {
    seq(|bones|, i requires 0 <= i < |bones| => Some(GetBoneName(bones[i])))
  }

  /** The parent of a ragdoll bone named `name`: -1 when the skeleton has
      no bone of that name, otherwise the ragdoll index of the nearest
      strict skeleton ancestor present in the ragdoll, or -1 if none. */
  function RagdollParent(skeleton: FSkeleton, ragdollIndex: map<string, nat>, name: string): int
    requires WellFormed(skeleton)
  {
    if name !in skeleton.BoneNameToIndex then -1
    else MappedParentOf(skeleton.Bones, ragdollIndex, skeleton.BoneNameToIndex[name])
  }

  /** A ragdoll bone whose skeleton bone is a root has no parent, and one
      whose name the skeleton lacks has none either. */
  lemma RagdollRootsHaveNoParent(skeleton: FSkeleton, ragdollIndex: map<string, nat>, name: string)
    requires WellFormed(skeleton)
    requires name !in skeleton.BoneNameToIndex ||
             skeleton.Bones[skeleton.BoneNameToIndex[name]].ParentIndex == -1
    ensures RagdollParent(skeleton, ragdollIndex, name) == -1
  {
  }

  /** The fallback loop of `SetupBoneHierarchy`: every bone after the
      first takes the bone before it as parent; the first keeps its own. */
  method LinearParents(bones: seq<FRagdollBone>) returns (result: seq<FRagdollBone>)
    ensures |result| == |bones|
    ensures forall k :: 0 <= k < |bones| ==> result[k] == bones[k].(ParentIndex := result[k].ParentIndex)
    ensures forall k :: 0 <= k < |bones| ==> result[k].ParentIndex == (if k == 0 then bones[0].ParentIndex else k - 1)
  {
    var n := |bones|;
    result := bones;
    var i := 1;
    while i < n
      invariant 1 <= i <= n || n == 0
      invariant |result| == n
      invariant forall k :: 0 <= k < n ==> result[k] == bones[k].(ParentIndex := result[k].ParentIndex)
      invariant forall k :: 0 <= k < n ==> result[k].ParentIndex == (if 0 < k < i then k - 1 else bones[k].ParentIndex)
    {
      result := result[i := result[i].(ParentIndex := i - 1)];
      i := i + 1;
    }
  }

  /** The skeleton loop of `SetupBoneHierarchy`: each bone takes
      `RagdollParent` of its name, with ragdoll bones looked up by name
      (the last bone of a name wins). */
  method SkeletonParents(bones: seq<FRagdollBone>, skeleton: FSkeleton) returns (result: seq<FRagdollBone>)
    requires WellFormed(skeleton)
    ensures |result| == |bones|
    ensures forall k :: 0 <= k < |bones| ==> result[k] == bones[k].(ParentIndex := result[k].ParentIndex)
    ensures forall k :: 0 <= k < |bones| ==>
              result[k].ParentIndex == RagdollParent(skeleton, LastIndexMap(RagdollNames(bones)), GetBoneName(bones[k]))
  {
    var n := |bones|;
    result := bones;
    var ragdollIndex := BuildLastIndexMap(RagdollNames(bones));
    var i := 0;
    while i < n
      invariant 0 <= i <= n && |result| == n
      invariant forall k :: 0 <= k < n ==> result[k] == bones[k].(ParentIndex := result[k].ParentIndex)
      invariant forall k :: 0 <= k < i ==>
                  result[k].ParentIndex == RagdollParent(skeleton, ragdollIndex, GetBoneName(bones[k]))
    {
      var name := GetBoneName(bones[i]);
      var parent := -1;
      if name in skeleton.BoneNameToIndex {
        var skeletonBone := skeleton.BoneNameToIndex[name];
        var skeletonParent := skeleton.Bones[skeletonBone].ParentIndex;
        if skeletonParent >= 0 {
          parent := FindMappedAncestor(skeleton.Bones, ragdollIndex, skeletonParent);
        }
      }
      result := result[i := result[i].(ParentIndex := parent)];
      i := i + 1;
    }
  }


  /** The instances `Update` syncs: the non-null, active ones, in list
      order. */
  function ActiveOf(list: seq<FRagdollInstance?>): seq<FRagdollInstance>
    reads set i | 0 <= i < |list| && list[i] != null :: list[i]
  {
    if list == [] then []
    else
      var last := list[|list| - 1];
      ActiveOf(list[..|list| - 1]) + (if last != null && last.bIsActive then [last] else [])
  }

  /** An instance is synced exactly when it is in the list and active. */
  lemma {:induction false} ActiveOfIsActiveMembers(list: seq<FRagdollInstance?>, x: FRagdollInstance)
    ensures x in ActiveOf(list) <==> x in list && x.bIsActive
    decreases |list|
  {
    if list != [] {
      var n := |list| - 1;
      ActiveOfIsActiveMembers(list[..n], x);
      assert list == list[..n] + [list[n]];
    }
  }

  class FRagdollSystem {
    var ActiveRagdolls: seq<FRagdollInstance?>

    constructor ()
      ensures ActiveRagdolls == []
    {
      ActiveRagdolls := [];
    }

    /** Sets each ragdoll bone's parent. Without an owner skeleton every
        bone after the first takes the bone before it and the first keeps
        its parent; otherwise each bone takes `RagdollParent` of its name,
        looked up in a map from bone name to the last ragdoll bone with
        that name. Setups and bodies are untouched. */
    method SetupBoneHierarchy(inst: FRagdollInstance?)
      requires inst != null && inst.OwnerSkeleton.Some? ==> WellFormed(inst.OwnerSkeleton.value)
      modifies inst
      ensures inst != null ==>
                inst.OwnerSkeleton == old(inst.OwnerSkeleton) && inst.bIsActive == old(inst.bIsActive) &&
                inst.BodyLog == old(inst.BodyLog) && |inst.Bones| == |old(inst.Bones)|
      ensures inst != null ==>
                forall i :: 0 <= i < |inst.Bones| ==>
                  inst.Bones[i] == old(inst.Bones[i]).(ParentIndex := inst.Bones[i].ParentIndex)
      ensures inst != null && inst.OwnerSkeleton.None? ==>
                forall i :: 0 <= i < |inst.Bones| ==>
                  inst.Bones[i].ParentIndex == (if i == 0 then old(inst.Bones[0].ParentIndex) else i - 1)
      ensures inst != null && inst.OwnerSkeleton.Some? ==>
                forall i :: 0 <= i < |inst.Bones| ==>
                  inst.Bones[i].ParentIndex ==
                    RagdollParent(inst.OwnerSkeleton.value, LastIndexMap(RagdollNames(old(inst.Bones))), GetBoneName(old(inst.Bones[i])))
    {
      if inst == null {
        return;
      }
      if inst.OwnerSkeleton.None? {
        inst.Bones := LinearParents(inst.Bones);
      } else {
        inst.Bones := SkeletonParents(inst.Bones, inst.OwnerSkeleton.value);
      }
    }

    /** Drops a destroyed instance from the active list; a null instance
        is ignored. */
    method DestroyRagdoll(inst: FRagdollInstance?)
      modifies this
      ensures inst == null ==> ActiveRagdolls == old(ActiveRagdolls)
      ensures inst != null ==> ActiveRagdolls == RemoveAll(old(ActiveRagdolls), inst)
      ensures inst != null ==> inst !in ActiveRagdolls &&
                               |ActiveRagdolls| == |old(ActiveRagdolls)| - multiset(old(ActiveRagdolls))[inst]
    {
      if inst == null {
        return;
      }
      RemoveAllCounts(ActiveRagdolls, inst);
      ActiveRagdolls := RemoveAll(ActiveRagdolls, inst);
    }

    /** The instances synced to their meshes this frame: the non-null,
        active ones, in list order. */
    method Update() returns (synced: seq<FRagdollInstance>)
      ensures synced == ActiveOf(ActiveRagdolls)
    {
      synced := [];
      var i := 0;
      while i < |ActiveRagdolls|
        invariant 0 <= i <= |ActiveRagdolls|
        invariant synced == ActiveOf(ActiveRagdolls[..i])
      {
        assert ActiveRagdolls[..i + 1][..i] == ActiveRagdolls[..i];
        var instance := ActiveRagdolls[i];
        if instance != null && instance.bIsActive {
          synced := synced + [instance];
        }
        i := i + 1;
      }
      assert ActiveRagdolls[..i] == ActiveRagdolls;
    }

    method GetActiveRagdollCount() returns (r: nat)
      ensures r == |ActiveRagdolls|
    {
      r := |ActiveRagdolls|;
    }
  }
}
