/** The tab bookkeeping of the skeletal mesh viewer window
    (Mundi/Source/Slate/Windows/SViewerWindow.cpp): opening and closing
    tabs while keeping the active tab index and state in step, and
    expanding the bone tree down to a selected bone. */
module SViewerWindow {
  import opened Text
  import opened Skeleton

  /** The part of a viewer tab's state these operations touch: the bones
      of the open mesh's skeleton (missing without a mesh or a skeleton)
      and the bone-tree rows that are expanded. */
  class ViewerState {
    var Bones: Option<seq<FBone>>
    var ExpandedBoneIndices: set<int>

    constructor (bones: Option<seq<FBone>>)
      ensures Bones == bones && ExpandedBoneIndices == {}
    {
      Bones := bones;
      ExpandedBoneIndices := {};
    }
  }

  /** The bones on the way from `bone` up to its root, as a set. */
  ghost function Ancestry(bones: seq<FBone>, bone: int): set<int>
    requires WellFormedBones(bones) && -1 <= bone < |bones|
  {
    set k | 0 <= k < |Chain(bones, bone)| :: Chain(bones, bone)[k] as int
  }

  /** A bone's ancestry holds the bone, its parent's ancestry and nothing
      else; so it holds the root the walk ends at. */
  lemma AncestryStep(bones: seq<FBone>, bone: nat)
    requires WellFormedBones(bones) && bone < |bones|
    ensures Ancestry(bones, bone) == {bone} + Ancestry(bones, bones[bone].ParentIndex)
  {
    var c := Chain(bones, bone);
    var rest := Chain(bones, bones[bone].ParentIndex);
    assert c == [bone] + rest;
    forall x | x in Ancestry(bones, bone)
      ensures x in {bone} + Ancestry(bones, bones[bone].ParentIndex)
    {
      var k :| 0 <= k < |c| && c[k] as int == x;
      if k > 0 {
        assert c[k] == rest[k - 1];
      }
    }
    forall x | x in Ancestry(bones, bones[bone].ParentIndex)
      ensures x in Ancestry(bones, bone)
    {
      var k :| 0 <= k < |rest| && rest[k] as int == x;
      assert c[k + 1] == rest[k];
    }
    assert c[0] == bone;
  }

  /** The walk up from a bone only meets the bone itself and bones listed
      before it, so every expanded row is a bone of the skeleton. */
  lemma {:induction false} AncestryInRange(bones: seq<FBone>, bone: int)
    requires WellFormedBones(bones) && -1 <= bone < |bones|
    ensures forall x :: x in Ancestry(bones, bone) ==> 0 <= x <= bone
    decreases bone + 1
  {
    if bone >= 0 {
      AncestryStep(bones, bone);
      AncestryInRange(bones, bones[bone].ParentIndex);
    }
  }

  /** `ExpandToSelectedBone`: for an open skeleton and a bone of it, adds
      the bone and all its ancestors to the expanded rows, and removes
      none; otherwise nothing changes. */
  method ExpandToSelectedBone(state: ViewerState?, boneIndex: int)
    requires state != null && state.Bones.Some? ==> WellFormedBones(state.Bones.value)
    modifies state
    ensures state != null ==> state.Bones == old(state.Bones)
    ensures state != null && state.Bones.Some? && 0 <= boneIndex < |state.Bones.value| ==>
              state.ExpandedBoneIndices == old(state.ExpandedBoneIndices) + Ancestry(state.Bones.value, boneIndex)
    ensures state != null && !(state.Bones.Some? && 0 <= boneIndex < |state.Bones.value|) ==>
              state.ExpandedBoneIndices == old(state.ExpandedBoneIndices)
  {
    if state == null || state.Bones.None? {
      return;
    }
    var bones := state.Bones.value;
    if boneIndex < 0 || boneIndex >= |bones| {
      return;
    }
    var current := boneIndex;
    while current >= 0
      invariant -1 <= current < |bones| && state.Bones == old(state.Bones)
      invariant state.ExpandedBoneIndices + Ancestry(bones, current) ==
                old(state.ExpandedBoneIndices) + Ancestry(bones, boneIndex)
      decreases current + 1
    {
      AncestryStep(bones, current);
      state.ExpandedBoneIndices := state.ExpandedBoneIndices + {current};
      current := bones[current].ParentIndex;
    }
    assert Chain(bones, -1) == [];
  }

  /** The open tabs and which of them is active. */
  class SViewerWindow {
    var Tabs: seq<ViewerState>
    var ActiveTabIndex: int
    var ActiveState: ViewerState?

    /** The active index names a tab and the active state is that tab's,
        or there are no tabs, no active index and no active state. */
    predicate Valid()
      reads this
    {
      if |Tabs| == 0 then ActiveTabIndex == -1 && ActiveState == null
      else 0 <= ActiveTabIndex < |Tabs| && ActiveState == Tabs[ActiveTabIndex]
    }

    constructor ()
      ensures Valid() && Tabs == []
    {
      Tabs := [];
      ActiveTabIndex := -1;
      ActiveState := null;
    }

    /** `OpenNewTab`, given what creating the tab's state gave: nothing
        when that failed, otherwise the new tab is appended and made
        active. */
    method OpenNewTab(state: ViewerState?)
      modifies this
      ensures state == null ==> Tabs == old(Tabs) && ActiveTabIndex == old(ActiveTabIndex) && ActiveState == old(ActiveState)
      ensures state != null ==> Tabs == old(Tabs) + [state] && ActiveTabIndex == |Tabs| - 1 && ActiveState == state
      ensures state != null || old(Valid()) ==> Valid()
    {
      if state == null {
        return;
      }
      Tabs := Tabs + [state];
      ActiveTabIndex := |Tabs| - 1;
      ActiveState := state;
    }

    /** `CloseTab`: an index out of range changes nothing; otherwise that
        one tab is removed and the tab now at the same index (or the last
        one) becomes active, or none when no tab is left. */
    method CloseTab(index: int)
      modifies this
      ensures !(0 <= index < |old(Tabs)|) ==>
                Tabs == old(Tabs) && ActiveTabIndex == old(ActiveTabIndex) && ActiveState == old(ActiveState)
      ensures 0 <= index < |old(Tabs)| ==>
                Tabs == old(Tabs)[..index] + old(Tabs)[index + 1..] &&
                (|Tabs| == 0 ==> ActiveTabIndex == -1) &&
                (|Tabs| > 0 ==> ActiveTabIndex == if index < |Tabs| then index else |Tabs| - 1)
      ensures 0 <= index < |old(Tabs)| || old(Valid()) ==> Valid()
    {
      if index < 0 || index >= |Tabs| {
        return;
      }
      Tabs := Tabs[..index] + Tabs[index + 1..];
      if |Tabs| == 0 {
        ActiveTabIndex := -1;
        ActiveState := null;
      } else {
        ActiveTabIndex := if index <= |Tabs| - 1 then index else |Tabs| - 1;
        ActiveState := Tabs[ActiveTabIndex];
      }
    }
  }
}
