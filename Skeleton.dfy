/** The bone hierarchy shared by skeletal meshes and ragdolls: bones with a
    parent index (-1 for a root) listed parents first, and the walk up the
    parent chain that both `USkeletalMeshComponent::SetupBoneHierarchy` and
    `FRagdollSystem::SetupBoneHierarchy` use to find the nearest ancestor
    that has a physics body. */
module Skeleton {
  import opened Text

  datatype FBone = FBone(Name: string, ParentIndex: int)

  /** `FSkeleton`: the bones and the name lookup built when it is loaded. */
  datatype FSkeleton = FSkeleton(Bones: seq<FBone>, BoneNameToIndex: map<string, nat>)

  /** Every bone is a root or names an earlier bone as its parent, so the
      parent walk always ends. */
  ghost predicate WellFormedBones(bones: seq<FBone>)
  {
    forall b :: 0 <= b < |bones| ==> bones[b].ParentIndex == -1 || 0 <= bones[b].ParentIndex < b
  }

  ghost predicate WellFormed(s: FSkeleton)
  {
    WellFormedBones(s.Bones) && forall n :: n in s.BoneNameToIndex ==> s.BoneNameToIndex[n] < |s.Bones|
  }

  /** The bones met when walking up from `p` (itself first), up to and
      including a root; empty when `p` is -1. */
  ghost function Chain(bones: seq<FBone>, p: int): (r: seq<nat>)
    requires WellFormedBones(bones) && -1 <= p < |bones|
    ensures forall k :: 0 <= k < |r| ==> r[k] < |bones|
    decreases p + 1
  {
    if p < 0 then [] else [p] + Chain(bones, bones[p].ParentIndex)
  }

  /** The value `names` maps the nearest bone to, walking up from `p`
      (itself included); -1 when no bone on the way is in `names`. */
  function NearestMapped(bones: seq<FBone>, names: map<string, nat>, p: int): int
    requires WellFormedBones(bones) && -1 <= p < |bones|
    decreases p + 1
  {
    if p < 0 then -1
    else if bones[p].Name in names then names[bones[p].Name]
    else NearestMapped(bones, names, bones[p].ParentIndex)
  }

  /** `NearestMapped` is the first bone of the chain whose name is mapped:
      -1 exactly when no bone of the chain is mapped, otherwise the value
      of a mapped bone of the chain with no mapped bone before it. */
  lemma {:induction false} NearestMappedIsFirstOnChain(bones: seq<FBone>, names: map<string, nat>, p: int)
    requires WellFormedBones(bones) && -1 <= p < |bones|
    ensures var c := Chain(bones, p);
            NearestMapped(bones, names, p) == -1 <==> forall k :: 0 <= k < |c| ==> bones[c[k]].Name !in names
    ensures var c := Chain(bones, p);
            NearestMapped(bones, names, p) != -1 ==>
              exists k :: 0 <= k < |c| && bones[c[k]].Name in names && names[bones[c[k]].Name] == NearestMapped(bones, names, p) &&
                          forall j :: 0 <= j < k ==> bones[c[j]].Name !in names
    decreases p + 1
  {
    if p >= 0 {
      var q := bones[p].ParentIndex;
      var c := Chain(bones, p);
      var rest := Chain(bones, q);
      assert c == [p] + rest;
      if bones[p].Name in names {
        assert bones[c[0]].Name in names;
      } else {
        NearestMappedIsFirstOnChain(bones, names, q);
        if NearestMapped(bones, names, q) != -1 {
          var k :| 0 <= k < |rest| && bones[rest[k]].Name in names && names[bones[rest[k]].Name] == NearestMapped(bones, names, q) &&
                   forall j :: 0 <= j < k ==> bones[rest[j]].Name !in names;
          assert c[k + 1] == rest[k];
          forall j | 0 <= j < k + 1
            ensures bones[c[j]].Name !in names
          {
            if j > 0 {
              assert c[j] == rest[j - 1];
            }
          }
        } else {
          forall k | 0 <= k < |c|
            ensures bones[c[k]].Name !in names
          {
            if k > 0 {
              assert c[k] == rest[k - 1];
            }
          }
        }
      }
    }
  }

  /** Index of each bone name in a list of entries that may name a bone:
      missing entries are skipped and a later entry for the same bone
      replaces an earlier one, as adding to a `TMap` does. */
  function LastIndexMap(entries: seq<Option<string>>): map<string, nat>
  {
    if entries == [] then map[]
    else
      var m := LastIndexMap(entries[..|entries| - 1]);
      match entries[|entries| - 1]
      case None => m
      case Some(name) => m[name := |entries| - 1]
  }

  /** A name is in the map exactly when some entry names it, and it maps to
      the last such entry. */
  lemma {:induction false} LastIndexMapIsLast(entries: seq<Option<string>>, name: string)
    ensures name in LastIndexMap(entries) <==> exists i :: 0 <= i < |entries| && entries[i] == Some(name)
    ensures name in LastIndexMap(entries) ==>
              var i := LastIndexMap(entries)[name];
              i < |entries| && entries[i] == Some(name) && forall j :: i < j < |entries| ==> entries[j] != Some(name)
    decreases |entries|
  {
    if entries != [] {
      var n := |entries| - 1;
      var front := entries[..n];
      LastIndexMapIsLast(front, name);
      if entries[n] == Some(name) {
      } else {
        if name in LastIndexMap(entries) {
          var i := LastIndexMap(front)[name];
          assert entries[i] == front[i];
        } else {
          forall i | 0 <= i < |entries|
            ensures entries[i] != Some(name)
          {
            if i < n {
              assert entries[i] == front[i];
            }
          }
        }
        if exists i :: 0 <= i < |entries| && entries[i] == Some(name) {
          var i :| 0 <= i < |entries| && entries[i] == Some(name);
          assert front[i] == entries[i];
        }
      }
    }
  }

  /** The parent entry of an entry on bone `bone`: what `names` maps the
      nearest strict ancestor bone to, or -1 when there is no bone or no
      ancestor is mapped. */
  function MappedParentOf(bones: seq<FBone>, names: map<string, nat>, bone: int): int
    requires WellFormedBones(bones) && bone < |bones|
  {
    if bone < 0 then -1 else NearestMapped(bones, names, bones[bone].ParentIndex)
  }

  /** `MappedParentOf` in terms of the parent chain: -1 when no strict
      ancestor is mapped, otherwise the value of a mapped ancestor with no
      mapped ancestor closer to the bone. */
  lemma MappedParentIsNearestAncestor(bones: seq<FBone>, names: map<string, nat>, bone: nat)
    requires WellFormedBones(bones) && bone < |bones|
    ensures var c := Chain(bones, bones[bone].ParentIndex);
            MappedParentOf(bones, names, bone) == -1 <==> forall k :: 0 <= k < |c| ==> bones[c[k]].Name !in names
    ensures var c := Chain(bones, bones[bone].ParentIndex);
            MappedParentOf(bones, names, bone) != -1 ==>
              exists k :: 0 <= k < |c| && bones[c[k]].Name in names &&
                          names[bones[c[k]].Name] == MappedParentOf(bones, names, bone) &&
                          forall j :: 0 <= j < k ==> bones[c[j]].Name !in names
  {
    NearestMappedIsFirstOnChain(bones, names, bones[bone].ParentIndex);
  }

  /** The name-map loop of both `SetupBoneHierarchy` implementations. */
  method BuildLastIndexMap(entries: seq<Option<string>>) returns (m: map<string, nat>)
    ensures m == LastIndexMap(entries)
  {
    m := map[];
    var i := 0;
    while i < |entries|
      invariant 0 <= i <= |entries|
      invariant m == LastIndexMap(entries[..i])
    {
      assert entries[..i + 1][..i] == entries[..i];
      if entries[i].Some? {
        m := m[entries[i].value := i];
      }
      i := i + 1;
    }
    assert entries[..i] == entries;
  }

  /** The parent walk of both `SetupBoneHierarchy` implementations: from
      bone `start`, climb parent links until a bone whose name is in
      `names`, and return what it maps to, or -1 past the root. */
  method FindMappedAncestor(bones: seq<FBone>, names: map<string, nat>, start: int) returns (r: int)
    requires WellFormedBones(bones) && -1 <= start < |bones|
    ensures r == NearestMapped(bones, names, start)
  {
    r := -1;
    var current := start;
    while current >= 0
      invariant -1 <= current < |bones|
      invariant NearestMapped(bones, names, current) == NearestMapped(bones, names, start)
      decreases current + 1
    {
      var name := bones[current].Name;
      if name in names {
        r := names[name];
        return;
      }
      current := bones[current].ParentIndex;
    }
  }
}
