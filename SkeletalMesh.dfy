/** Physics asset generation for a skeletal mesh
    (Mundi/Source/Runtime/AssetManagement/SkeletalMesh.cpp,
    `USkeletalMesh::AutoGeneratePhysicsAsset`): one capsule body per bone
    and one constraint per bone that has a parent. */
module SkeletalMesh {
  import opened Text
  import opened Skeleton
  import opened PhysicsAsset

  /** The body generated for a bone: named after it, holding one small
      capsule, with the generator's mass and damping. */
  function GeneratedBody(bone: FBone): (r: UBodySetup)
    ensures r.BoneName == bone.Name
    ensures r.AggGeom.SphereElems == [] && r.AggGeom.BoxElems == [] && r.AggGeom.ConvexElemCount == 0
    ensures |r.AggGeom.SphylElems| == 1
  {
    UBodySetup(bone.Name, FKAggregateGeom([], [], [FKSphylElem(0.1, 0.1)], 0), 1.0, 0.1, 0.1)
  }

  /** Bone `i` has a parent the constraint loop accepts. */
  predicate HasParentInRange(bones: seq<FBone>, i: nat)
    requires i < |bones|
  {
    0 <= bones[i].ParentIndex < |bones|
  }

  /** The bones among the first `n` that get a constraint, in order. */
  function ConstrainedChildren(bones: seq<FBone>, n: nat): (r: seq<nat>)
    requires n <= |bones|
    ensures forall k :: 0 <= k < |r| ==> r[k] < n
  {
    if n == 0 then []
    else ConstrainedChildren(bones, n - 1) + (if HasParentInRange(bones, n - 1) then [n - 1] else [])
  }

  predicate StrictlyIncreasing(s: seq<nat>)
  {
    forall j, k :: 0 <= j < k < |s| ==> s[j] < s[k]
  }

  /** A bone gets a constraint exactly when its parent index is in range,
      and no bone gets two: the list is strictly increasing. */
  lemma {:induction false} ConstrainedChildrenExactlyOnce(bones: seq<FBone>, n: nat)
    requires n <= |bones|
    ensures forall i :: 0 <= i < n ==> (i in ConstrainedChildren(bones, n) <==> HasParentInRange(bones, i))
    ensures StrictlyIncreasing(ConstrainedChildren(bones, n))
  {
    if n > 0 {
      ConstrainedChildrenExactlyOnce(bones, n - 1);
      var c := ConstrainedChildren(bones, n - 1);
      var r := ConstrainedChildren(bones, n);
      var t: seq<nat> := if HasParentInRange(bones, n - 1) then [n - 1] else [];
      assert r == c + t;
      assert n - 1 !in c;
      forall i | 0 <= i < n
        ensures i in r <==> HasParentInRange(bones, i)
      {
        if i < n - 1 {
          assert i in r <==> i in c;
        }
      }
      forall j, k | 0 <= j < k < |r|
        ensures r[j] < r[k]
      {
        if k >= |c| {
          assert r[k] == n - 1 && r[j] == c[j] && c[j] < n - 1;
        } else {
          assert StrictlyIncreasing(c);
          assert r[j] == c[j] && r[k] == c[k] && c[j] < c[k];
        }
      }
    }
  }

  /** The constraint for the bone `child`: the parent's name first as
      written, or the child's name first when `childFirst`. */
  function ConstraintFor(bones: seq<FBone>, child: nat, childFirst: bool): FConstraintInstance
    requires child < |bones| && HasParentInRange(bones, child)
  {
    var parentName := bones[bones[child].ParentIndex].Name;
    if childFirst then NewConstraint(bones[child].Name, parentName)
    else NewConstraint(parentName, bones[child].Name)
  }

  /** The constraints made for the first `n` bones. */
  function ConstraintsFor(bones: seq<FBone>, n: nat, childFirst: bool): seq<FConstraintInstance>
    requires n <= |bones|
  {
    if n == 0 then []
    else ConstraintsFor(bones, n - 1, childFirst) +
         (if HasParentInRange(bones, n - 1) then [ConstraintFor(bones, n - 1, childFirst)] else [])
  }

  /** Constraint `k` belongs to the `k`-th constrained bone. */
  lemma {:induction false} ConstraintsFollowChildren(bones: seq<FBone>, n: nat, childFirst: bool)
    requires n <= |bones|
    ensures var c := ConstrainedChildren(bones, n);
            |ConstraintsFor(bones, n, childFirst)| == |c| &&
            forall k :: 0 <= k < |c| ==>
              HasParentInRange(bones, c[k]) && ConstraintsFor(bones, n, childFirst)[k] == ConstraintFor(bones, c[k], childFirst)
  {
    if n > 0 {
      ConstraintsFollowChildren(bones, n - 1, childFirst);
    }
  }

  /** The constraints `AutoGeneratePhysicsAsset` creates, as written:
      `ConstraintBone1` is the parent bone and `ConstraintBone2` the child. */
  function GeneratedConstraints(bones: seq<FBone>): seq<FConstraintInstance>
  {
    ConstraintsFor(bones, |bones|, false)
  }

  /** One constraint per bone whose parent index is in range, in bone
      order; each joins the parent (bone 1) to the child (bone 2) with the
      default limits of 45 degrees. */
  lemma GeneratedConstraintsOnePerChild(bones: seq<FBone>)
    ensures var c := ConstrainedChildren(bones, |bones|);
            var r := GeneratedConstraints(bones);
            |r| == |c| &&
            (forall i :: 0 <= i < |bones| ==> (i in c <==> HasParentInRange(bones, i))) &&
            forall k :: 0 <= k < |c| ==>
              HasParentInRange(bones, c[k]) &&
              r[k].ConstraintBone1 == bones[bones[c[k]].ParentIndex].Name &&
              r[k].ConstraintBone2 == bones[c[k]].Name &&
              JointRolesOf(r[k]) == JointRoles(bones[bones[c[k]].ParentIndex].Name, bones[c[k]].Name) &&
              r[k].TwistLimitAngle == r[k].Swing1LimitAngle == r[k].Swing2LimitAngle == 45.0
  {
    ConstraintsFollowChildren(bones, |bones|, false);
    ConstrainedChildrenExactlyOnce(bones, |bones|);
  }

  /** With a root bone and one child, the generated constraint names the
      root as `ConstraintBone1`, so the joint built from it takes the root
      as its child and the arm as its parent: the roles are swapped. */
  lemma GeneratedConstraintNamesParentFirst()
    ensures var bones := [FBone("root", -1), FBone("arm", 0)];
            GeneratedConstraints(bones) == [NewConstraint("root", "arm")] &&
            bones[1].ParentIndex == 0 &&
            JointRolesOf(GeneratedConstraints(bones)[0]) == JointRoles("root", "arm")
  {
    var bones := [FBone("root", -1), FBone("arm", 0)];
    assert !HasParentInRange(bones, 0) && HasParentInRange(bones, 1);
    assert ConstraintsFor(bones, 1, false) == [];
  }

  /** The constraints in the order ConstraintInstance.h documents and
      `FConstraintInstance::InitConstraint` expects: child first, parent
      second. */
  function UnrealOrderConstraints(bones: seq<FBone>): seq<FConstraintInstance>
  {
    ConstraintsFor(bones, |bones|, true)
  }

  /** In documented order, constraint `k` names the `k`-th constrained
      bone as `ConstraintBone1` and its parent as `ConstraintBone2`, so the
      joint built from it gives both bones their own roles. */
  lemma UnrealOrderChildFirst(bones: seq<FBone>)
    ensures var c := ConstrainedChildren(bones, |bones|);
            var r := UnrealOrderConstraints(bones);
            |r| == |c| &&
            forall k :: 0 <= k < |c| ==>
              HasParentInRange(bones, c[k]) &&
              JointRolesOf(r[k]) == JointRoles(bones[c[k]].Name, bones[bones[c[k]].ParentIndex].Name) &&
              r[k].TwistLimitAngle == r[k].Swing1LimitAngle == r[k].Swing2LimitAngle == 45.0
  {
    ConstraintsFollowChildren(bones, |bones|, true);
  }

  class USkeletalMesh {
    /** The bones of the mesh data's skeleton; missing when the mesh has
        no data. */
    var Data: Option<seq<FBone>>
    var PhysicsAsset: Option<UPhysicsAsset>

    constructor (data: Option<seq<FBone>>, asset: Option<UPhysicsAsset>)
      ensures Data == data && PhysicsAsset == asset
    {
      Data := data;
      PhysicsAsset := asset;
    }

    /** Gives a mesh with a non-empty skeleton and no bodies yet a fresh
        physics asset: `GeneratedBody` for each bone in bone order, and
        `GeneratedConstraints`. Otherwise nothing changes. */
    method AutoGeneratePhysicsAsset()
      modifies this
      ensures Data == old(Data)
      ensures Data.None? || |Data.value| == 0 || (old(PhysicsAsset).Some? && |old(PhysicsAsset).value.Bodies| > 0) ==>
                PhysicsAsset == old(PhysicsAsset)
      ensures !(Data.None? || |Data.value| == 0 || (old(PhysicsAsset).Some? && |old(PhysicsAsset).value.Bodies| > 0)) ==>
                PhysicsAsset.Some? &&
                |PhysicsAsset.value.Bodies| == |Data.value| &&
                (forall i :: 0 <= i < |Data.value| ==> PhysicsAsset.value.Bodies[i] == Some(GeneratedBody(Data.value[i]))) &&
                PhysicsAsset.value.Constraints == GeneratedConstraints(Data.value)
    {
      if Data.None? || |Data.value| == 0 {
        return;
      }
      if PhysicsAsset.Some? && |PhysicsAsset.value.Bodies| > 0 {
        return;
      }
      var bones := Data.value;
      var bodies: seq<Option<UBodySetup>> := [];
      var i := 0;
      while i < |bones|
        modifies {}
        invariant 0 <= i <= |bones| && |bodies| == i
        invariant forall k :: 0 <= k < i ==> bodies[k] == Some(GeneratedBody(bones[k]))
      {
        bodies := bodies + [Some(GeneratedBody(bones[i]))];
        i := i + 1;
      }
      var constraints: seq<FConstraintInstance> := [];
      i := 0;
      while i < |bones|
        modifies {}
        invariant 0 <= i <= |bones|
        invariant constraints == ConstraintsFor(bones, i, false)
      {
        var parentIndex := bones[i].ParentIndex;
        if 0 <= parentIndex < |bones| {
          constraints := constraints + [NewConstraint(bones[parentIndex].Name, bones[i].Name)];
        }
        i := i + 1;
      }
      PhysicsAsset := Some(UPhysicsAsset(bodies, constraints));
    }
  }
}
