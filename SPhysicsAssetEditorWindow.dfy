/** The physics asset editor's editing operations
    (Mundi/Source/Slate/Windows/SPhysicsAssetEditorWindow.cpp): selecting a
    body, a shape or a constraint, removing bodies and shapes, adding
    shapes and constraints, and the tab label and tab numbering.

    The window acts on the state of its active tab; with no active tab
    every operation returns at once, so the operations are modelled as
    methods of the tab state. The edited asset is held by value. Gizmo
    updates and logging are not modelled. */
module SPhysicsAssetEditorWindow {
  import opened Text
  import opened PhysicsAsset

  /** `EShapeType`; `NoShape` is `EShapeType::None`. */
  datatype EShapeType = NoShape | Sphere | Box | Capsule

  datatype ESelectionSource = TreeOrViewport | Graph

  /** `GetShapeCountByType`: the number of shapes of one kind on a body; 0
      for a missing body or for `NoShape`. */
  function GetShapeCountByType(body: Option<UBodySetup>, shapeType: EShapeType): (r: nat)
    ensures body.None? || shapeType == NoShape ==> r == 0
    ensures body.Some? && shapeType == Sphere ==> r == |body.value.AggGeom.SphereElems|
    ensures body.Some? && shapeType == Box ==> r == |body.value.AggGeom.BoxElems|
    ensures body.Some? && shapeType == Capsule ==> r == |body.value.AggGeom.SphylElems|
  {
    match body
    case None => 0
    case Some(b) =>
      match shapeType
      case Sphere => |b.AggGeom.SphereElems|
      case Box => |b.AggGeom.BoxElems|
      case Capsule => |b.AggGeom.SphylElems|
      case NoShape => 0
  }

  /** The kind `AddShapeToBody` adds: anything but a sphere or a box adds a
      capsule. */
  function AddedKind(shapeType: EShapeType): EShapeType
  {
    if shapeType == Sphere || shapeType == Box then shapeType else Capsule
  }

  /** `AddShapeToBody`: one more shape of the requested kind, with the
      editor's default size. */
  function AddShapeToBody(body: Option<UBodySetup>, shapeType: EShapeType): Option<UBodySetup>
  {
    match body
    case None => None
    case Some(b) =>
      var g := b.AggGeom;
      Some(b.(AggGeom :=
        match shapeType
        case Box => g.(BoxElems := g.BoxElems + [FKBoxElem(0.15, 0.15, 0.15)])
        case Sphere => g.(SphereElems := g.SphereElems + [FKSphereElem(0.15)])
        case _ => g.(SphylElems := g.SphylElems + [FKSphylElem(0.1, 0.3)])))
  }

  /** Adding a shape raises the count of the added kind by one and leaves
      the other kinds, the name and the physical values as they were; a
      missing body stays missing. */
  lemma AddShapeCounts(body: Option<UBodySetup>, shapeType: EShapeType)
    ensures body.None? ==> AddShapeToBody(body, shapeType).None?
    ensures body.Some? ==>
              var r := AddShapeToBody(body, shapeType);
              r.Some? && r.value.BoneName == body.value.BoneName &&
              r.value.MassInKg == body.value.MassInKg &&
              GetShapeCountByType(r, AddedKind(shapeType)) == GetShapeCountByType(body, AddedKind(shapeType)) + 1 &&
              forall k :: k != AddedKind(shapeType) ==> GetShapeCountByType(r, k) == GetShapeCountByType(body, k)
  {
  }

  /** The shape `SelectBody` picks on a body: index 0 of the first
      non-empty kind in the order sphere, box, capsule, else none. */
  function FirstShape(body: Option<UBodySetup>): (r: (int, EShapeType))
    ensures r.0 == -1 <==> r.1 == NoShape
    ensures r.1 != NoShape ==> r.0 == 0 && GetShapeCountByType(body, r.1) > 0
    ensures r.1 == NoShape ==>
              GetShapeCountByType(body, Sphere) == GetShapeCountByType(body, Box) == GetShapeCountByType(body, Capsule) == 0
    ensures r.1 == Box ==> GetShapeCountByType(body, Sphere) == 0
    ensures r.1 == Capsule ==> GetShapeCountByType(body, Sphere) == GetShapeCountByType(body, Box) == 0
  {
    if body.None? then (-1, NoShape)
    else if |body.value.AggGeom.SphereElems| > 0 then (0, Sphere)
    else if |body.value.AggGeom.BoxElems| > 0 then (0, Box)
    else if |body.value.AggGeom.SphylElems| > 0 then (0, Capsule)
    else (-1, NoShape)
  }

  /** `CreateDefaultConstraint`: `bone1` and `bone2` joined with every
      linear axis locked, every angular axis limited to 45 degrees and
      collision between the two bodies off. */
  function CreateDefaultConstraint(bone1: string, bone2: string): (r: FConstraintInstance)
    ensures r.ConstraintBone1 == bone1 && r.ConstraintBone2 == bone2
    ensures r.LinearXMotion == r.LinearYMotion == r.LinearZMotion == LinearLocked
    ensures r.TwistMotion == r.Swing1Motion == r.Swing2Motion == AngularLimited
    ensures r.TwistLimitAngle == r.Swing1LimitAngle == r.Swing2LimitAngle == 45.0
    ensures r.bDisableCollision
  {
    FConstraintInstance(bone1, bone2, LinearLocked, LinearLocked, LinearLocked, 0.0,
                        AngularLimited, AngularLimited, AngularLimited, 45.0, 45.0, 45.0, true)
  }

  /** The editor's default constraint is a default-constructed constraint
      between the two bones. */
  lemma DefaultConstraintIsConstructorDefault(bone1: string, bone2: string)
    ensures CreateDefaultConstraint(bone1, bone2) == NewConstraint(bone1, bone2)
  {
  }

  /** Some constraint joins the two bones, in either order. */
  predicate HasConstraintBetween(constraints: seq<FConstraintInstance>, bone1: string, bone2: string)
  {
    exists i :: 0 <= i < |constraints| &&
      ((constraints[i].ConstraintBone1 == bone1 && constraints[i].ConstraintBone2 == bone2) ||
       (constraints[i].ConstraintBone1 == bone2 && constraints[i].ConstraintBone2 == bone1))
  }

  /** Once a constraint between two bones is added, a constraint between
      them exists in both orders, so adding it again is refused. */
  lemma AddedConstraintIsFound(constraints: seq<FConstraintInstance>, bone1: string, bone2: string)
    ensures HasConstraintBetween(constraints + [CreateDefaultConstraint(bone1, bone2)], bone1, bone2)
    ensures HasConstraintBetween(constraints + [CreateDefaultConstraint(bone1, bone2)], bone2, bone1)
  {
    var r := constraints + [CreateDefaultConstraint(bone1, bone2)];
    assert r[|constraints|] == CreateDefaultConstraint(bone1, bone2);
  }

  predicate MentionsBone(c: FConstraintInstance, bone: string)
  {
    c.ConstraintBone1 == bone || c.ConstraintBone2 == bone
  }

  /** The constraints that do not mention `bone`, in order. */
  function KeepUnrelated(constraints: seq<FConstraintInstance>, bone: string): seq<FConstraintInstance>
  {
    if constraints == [] then []
    else (if MentionsBone(constraints[0], bone) then [] else [constraints[0]]) + KeepUnrelated(constraints[1..], bone)
  }

  /** No kept constraint mentions the bone, and every constraint that does
      not is kept as often as it occurred. */
  lemma {:induction false} KeepUnrelatedExactly(constraints: seq<FConstraintInstance>, bone: string)
    ensures forall c :: c in KeepUnrelated(constraints, bone) ==> !MentionsBone(c, bone)
    ensures forall c :: !MentionsBone(c, bone) ==> multiset(KeepUnrelated(constraints, bone))[c] == multiset(constraints)[c]
  {
    if constraints != [] {
      KeepUnrelatedExactly(constraints[1..], bone);
      assert constraints == [constraints[0]] + constraints[1..];
      assert multiset(constraints) == multiset{constraints[0]} + multiset(constraints[1..]);
    }
  }

  /** `s` without the element at `i`. */
  function RemoveAt<T>(s: seq<T>, i: nat): (r: seq<T>)
    requires i < |s|
    ensures |r| == |s| - 1
    ensures forall k :: 0 <= k < i ==> r[k] == s[k]
    ensures forall k :: i <= k < |r| ==> r[k] == s[k + 1]
  {
    s[..i] + s[i + 1..]
  }

  /** The body with its `index`-th shape of kind `shapeType` removed. */
  function RemoveShape(body: UBodySetup, shapeType: EShapeType, index: nat): UBodySetup
    requires shapeType != NoShape && index < GetShapeCountByType(Some(body), shapeType)
  {
    var g := body.AggGeom;
    body.(AggGeom :=
      match shapeType
      case Sphere => g.(SphereElems := RemoveAt(g.SphereElems, index))
      case Box => g.(BoxElems := RemoveAt(g.BoxElems, index))
      case Capsule => g.(SphylElems := RemoveAt(g.SphylElems, index)))
  }

  /** Removing a shape lowers its kind's count by one and changes nothing
      else about the body. */
  lemma RemoveShapeCounts(body: UBodySetup, shapeType: EShapeType, index: nat)
    requires shapeType != NoShape && index < GetShapeCountByType(Some(body), shapeType)
    ensures var r := RemoveShape(body, shapeType, index);
            r.BoneName == body.BoneName && r.AggGeom.ConvexElemCount == body.AggGeom.ConvexElemCount &&
            GetShapeCountByType(Some(r), shapeType) + 1 == GetShapeCountByType(Some(body), shapeType) &&
            forall k :: k != shapeType ==> GetShapeCountByType(Some(r), k) == GetShapeCountByType(Some(body), k)
  {
  }

  /** A body with no sphere, box or capsule left; convex elements do not
      count. */
  predicate HasNoPrimitiveShapes(body: UBodySetup)
  {
    body.AggGeom.SphereElems == [] && body.AggGeom.BoxElems == [] && body.AggGeom.SphylElems == []
  }

  /** A file name up to its last dot. What is cut off is a dot followed
      by no other dot; a name without a dot is kept whole. */
  function WithoutExtension(name: string): (r: string)
    ensures |r| <= |name| && r == name[..|r|]
    ensures |r| < |name| ==> name[|r|] == '.' && forall k :: |r| < k < |name| ==> name[k] != '.'
    ensures |r| == |name| ==> forall k :: 0 <= k < |name| ==> name[k] != '.'
  {
    var dot := LastIndexOfChar(name, '.');
    if dot >= 0 then name[..dot] else name
  }

  /** The name shown for a file: `WithoutExtension` of its file name, so
      it holds no path separator. */
  function Stem(path: string): (r: string)
    ensures r == WithoutExtension(FileNameOf(path))
    ensures forall k :: 0 <= k < |r| ==> !IsPathSeparator(r[k])
  {
    var name := FileNameOf(path);
    var r := WithoutExtension(name);
    PrefixHasNoSeparator(name, |r|);
    r
  }

  lemma PrefixHasNoSeparator(name: string, n: nat)
    requires n <= |name| && forall k :: 0 <= k < |name| ==> !IsPathSeparator(name[k])
    ensures forall k :: 0 <= k < n ==> !IsPathSeparator(name[..n][k])
  {
  }

  /** The name a tab shows for its file: `Untitled` for an unsaved
      asset, else the file's `Stem`. */
  function BaseLabel(currentFilePath: string): string
  {
    if currentFilePath == [] then "Untitled" else Stem(currentFilePath)
  }

  /** The label of a tab: its `BaseLabel`, `*` when there are unsaved
      edits, then the hidden `##` suffix with the tab's name that keeps
      labels unique. */
  function TabDisplayName(currentFilePath: string, dirty: bool, tabName: string): string
  {
    BaseLabel(currentFilePath) + (if dirty then "*" else "") + "##" + tabName
  }

  /** The label starts with `Untitled` or the file's stem, the character
      after it is `*` exactly when there are unsaved edits, and it ends
      with `##` and the tab's name. */
  lemma TabDisplayNameParts(currentFilePath: string, dirty: bool, tabName: string)
    ensures var r := TabDisplayName(currentFilePath, dirty, tabName);
            var n := |BaseLabel(currentFilePath)|;
            |r| == n + (if dirty then 1 else 0) + 2 + |tabName| &&
            (currentFilePath == [] ==> r[..n] == "Untitled") &&
            (currentFilePath != [] ==> r[..n] == Stem(currentFilePath)) &&
            (dirty <==> r[n] == '*') &&
            r[|r| - |tabName| - 2..] == "##" + tabName
  {
    var base := BaseLabel(currentFilePath);
    var mark := if dirty then "*" else "";
    var r := TabDisplayName(currentFilePath, dirty, tabName);
    assert r == base + (mark + ("##" + tabName));
    assert r[..|base|] == base;
    assert r[|base|] == (mark + ("##" + tabName))[0];
    assert r[|r| - |tabName| - 2..] == "##" + tabName;
  }

  const TabPrefix: string := "PhysicsTab"

  /** The decimal digits at the start of `s`. */
  function LeadingDigits(s: string): (r: nat)
    ensures r <= |s| && forall k :: 0 <= k < r ==> IsDigit(s[k])
    ensures r < |s| ==> !IsDigit(s[r])
  {
    if s == [] || !IsDigit(s[0]) then 0 else 1 + LeadingDigits(s[1..])
  }

  /** `atoi`: leading whitespace, an optional sign and the decimal digits
      that follow; 0 when there are none. */
  function Atoi(s: string): int
  {
    var i := SkipSpaces(s, 0);
    var rest := s[i..];
    if rest != [] && (rest[0] == '-' || rest[0] == '+') then
      var digits := rest[1..][..LeadingDigits(rest[1..])];
      var v: int := DigitsValue(digits);
      if rest[0] == '-' then -v else v
    else DigitsValue(rest[..LeadingDigits(rest)])
  }

  /** The number a tab name carries: what `atoi` reads after
      `PhysicsTab`; names without that prefix carry none. */
  function TabNumber(name: string): Option<int>
  {
    if |TabPrefix| <= |name| && name[..|TabPrefix|] == TabPrefix then Some(Atoi(name[|TabPrefix|..])) else None
  }

  /** The largest tab number among `names`, and 0 when there is none
      larger. */
  function MaxTabNumber(names: seq<string>): (r: int)
    ensures r >= 0
  {
    if names == [] then 0
    else
      var m := MaxTabNumber(names[..|names| - 1]);
      match TabNumber(names[|names| - 1])
      case Some(n) => if n > m then n else m
      case None => m
  }

  /** The maximum bounds every tab number and is 0 or one of them. */
  lemma {:induction false} MaxTabNumberIsMaximum(names: seq<string>)
    ensures forall i :: 0 <= i < |names| && TabNumber(names[i]).Some? ==> TabNumber(names[i]).value <= MaxTabNumber(names)
    ensures MaxTabNumber(names) == 0 ||
            exists i :: 0 <= i < |names| && TabNumber(names[i]) == Some(MaxTabNumber(names))
  {
    if names != [] {
      var front := names[..|names| - 1];
      MaxTabNumberIsMaximum(front);
      forall i | 0 <= i < |front|
        ensures names[i] == front[i]
      {
      }
    }
  }

  /** The tab name the `+` button makes for number `n`. */
  function NewTabName(n: nat): string
  {
    TabPrefix + NatToString(n)
  }

  /** A new tab's name carries its number back, so the next new tab gets
      a larger one. */
  lemma NewTabNameCarriesNumber(n: nat)
    ensures TabNumber(NewTabName(n)) == Some(n)
  {
    var name := NewTabName(n);
    var digits := NatToString(n);
    assert name[..|TabPrefix|] == TabPrefix;
    assert name[|TabPrefix|..] == digits;
    assert !IsSpace(digits[0]) && digits[0] != '-' && digits[0] != '+';
    assert SkipSpaces(digits, 0) == 0;
    assert digits[0..] == digits;
    AllDigitsLead(digits);
    assert digits[..|digits|] == digits;
    DigitsValueOfNatToString(n);
  }

  lemma {:induction false} AllDigitsLead(s: string)
    requires forall k :: 0 <= k < |s| ==> IsDigit(s[k])
    ensures LeadingDigits(s) == |s|
  {
    if s != [] {
      AllDigitsLead(s[1..]);
    }
  }

  /** The number the `+` button gives a new tab: one more than the largest
      number among the open tabs' names. */
  method NextTabNumber(names: seq<string>) returns (r: int)
    ensures r == MaxTabNumber(names) + 1
  {
    var maxViewerNum := 0;
    var i := 0;
    while i < |names|
      invariant 0 <= i <= |names|
      invariant maxViewerNum == MaxTabNumber(names[..i])
    {
      assert names[..i + 1][..i] == names[..i];
      var n := TabNumber(names[i]);
      if n.Some? && n.value > maxViewerNum {
        maxViewerNum := n.value;
      }
      i := i + 1;
    }
    assert names[..i] == names;
    r := maxViewerNum + 1;
  }

  /** The state of one editor tab. */
  class PhysicsAssetEditorState {
    var EditingAsset: Option<UPhysicsAsset>
    var SelectedBodyIndex: int
    var SelectedConstraintIndex: int
    var SelectedShapeIndex: int
    var SelectedShapeType: EShapeType
    var SelectionSource: ESelectionSource
    var bShapesDirty: bool
    var bConstraintsDirty: bool
    var bIsDirty: bool
    var CurrentFilePath: string

    constructor (asset: Option<UPhysicsAsset>, path: string)
      ensures EditingAsset == asset && CurrentFilePath == path
      ensures SelectedBodyIndex == SelectedConstraintIndex == SelectedShapeIndex == -1 && SelectedShapeType == NoShape
      ensures !bIsDirty
    {
      EditingAsset := asset;
      CurrentFilePath := path;
      SelectedBodyIndex := -1;
      SelectedConstraintIndex := -1;
      SelectedShapeIndex := -1;
      SelectedShapeType := NoShape;
      SelectionSource := TreeOrViewport;
      bShapesDirty := false;
      bConstraintsDirty := false;
      bIsDirty := false;
    }

    /** Nothing is selected. */
    predicate NothingSelected()
      reads this
    {
      SelectedBodyIndex == -1 && SelectedConstraintIndex == -1 && SelectedShapeIndex == -1 && SelectedShapeType == NoShape
    }

    /** Selects body `index` and its first shape (`FirstShape`), and drops
        the constraint selection. */
    method SelectBody(index: int, source: ESelectionSource)
      modifies this
      ensures SelectedBodyIndex == index && SelectedConstraintIndex == -1 && SelectionSource == source && bShapesDirty
      ensures (SelectedShapeIndex, SelectedShapeType) ==
                (if EditingAsset.Some? && 0 <= index < |EditingAsset.value.Bodies|
                 then FirstShape(EditingAsset.value.Bodies[index]) else (-1, NoShape))
      ensures EditingAsset == old(EditingAsset) && bIsDirty == old(bIsDirty) && bConstraintsDirty == old(bConstraintsDirty)
      ensures CurrentFilePath == old(CurrentFilePath)
    {
      SelectedBodyIndex := index;
      SelectedConstraintIndex := -1;
      SelectionSource := source;
      bShapesDirty := true;
      SelectedShapeIndex := -1;
      SelectedShapeType := NoShape;
      if EditingAsset.Some? && 0 <= index < |EditingAsset.value.Bodies| {
        var body := EditingAsset.value.Bodies[index];
        if body.Some? {
          if |body.value.AggGeom.SphereElems| > 0 {
            SelectedShapeIndex, SelectedShapeType := 0, Sphere;
          } else if |body.value.AggGeom.BoxElems| > 0 {
            SelectedShapeIndex, SelectedShapeType := 0, Box;
          } else if |body.value.AggGeom.SphylElems| > 0 {
            SelectedShapeIndex, SelectedShapeType := 0, Capsule;
          }
        }
      }
    }

    /** Selects constraint `index` and drops the body and shape selection. */
    method SelectConstraint(index: int)
      modifies this
      ensures SelectedConstraintIndex == index
      ensures SelectedBodyIndex == -1 && SelectedShapeIndex == -1 && SelectedShapeType == NoShape
      ensures EditingAsset == old(EditingAsset) && bIsDirty == old(bIsDirty) && bConstraintsDirty == old(bConstraintsDirty)
      ensures bShapesDirty == old(bShapesDirty) && SelectionSource == old(SelectionSource) && CurrentFilePath == old(CurrentFilePath)
    {
      SelectedConstraintIndex := index;
      SelectedBodyIndex := -1;
      SelectedShapeIndex := -1;
      SelectedShapeType := NoShape;
    }

    method ClearSelection()
      modifies this
      ensures NothingSelected() && bShapesDirty
      ensures EditingAsset == old(EditingAsset) && bIsDirty == old(bIsDirty) && bConstraintsDirty == old(bConstraintsDirty)
      ensures SelectionSource == old(SelectionSource) && CurrentFilePath == old(CurrentFilePath)
    {
      SelectedBodyIndex := -1;
      SelectedConstraintIndex := -1;
      SelectedShapeIndex := -1;
      SelectedShapeType := NoShape;
      bShapesDirty := true;
    }

    /** Whether `RemoveBody(bodyIndex)` does anything. */
    predicate CanRemoveBody(bodyIndex: int)
      reads this
    {
      EditingAsset.Some? && 0 <= bodyIndex < |EditingAsset.value.Bodies| && EditingAsset.value.Bodies[bodyIndex].Some?
    }

    /** Removes body `bodyIndex` and every constraint that mentions its
        bone (`KeepUnrelatedExactly`), then clears the selection. A missing
        asset, an index out of range or an empty slot changes nothing. */
    method RemoveBody(bodyIndex: int)
      modifies this
      ensures !old(CanRemoveBody(bodyIndex)) ==>
                EditingAsset == old(EditingAsset) && SelectedBodyIndex == old(SelectedBodyIndex) &&
                SelectedConstraintIndex == old(SelectedConstraintIndex) && SelectedShapeIndex == old(SelectedShapeIndex) &&
                SelectedShapeType == old(SelectedShapeType) && bIsDirty == old(bIsDirty) && bShapesDirty == old(bShapesDirty)
      ensures old(CanRemoveBody(bodyIndex)) ==>
                var asset := old(EditingAsset).value;
                EditingAsset == Some(UPhysicsAsset(
                  RemoveAt(asset.Bodies, bodyIndex),
                  KeepUnrelated(asset.Constraints, asset.Bodies[bodyIndex].value.BoneName))) &&
                NothingSelected() && bIsDirty && bShapesDirty
      ensures bConstraintsDirty == old(bConstraintsDirty) && SelectionSource == old(SelectionSource)
      ensures CurrentFilePath == old(CurrentFilePath)
    {
      if !CanRemoveBody(bodyIndex) {
        return;
      }
      var asset := EditingAsset.value;
      var boneName := asset.Bodies[bodyIndex].value.BoneName;
      var constraints := asset.Constraints;
      var kept: seq<FConstraintInstance> := [];
      var i := |constraints|;
      while i > 0
        invariant 0 <= i <= |constraints|
        invariant kept == KeepUnrelated(constraints[i..], boneName)
      {
        i := i - 1;
        assert constraints[i..] == [constraints[i]] + constraints[i + 1..];
        if !MentionsBone(constraints[i], boneName) {
          kept := [constraints[i]] + kept;
        }
      }
      assert constraints[0..] == constraints;
      EditingAsset := Some(UPhysicsAsset(RemoveAt(asset.Bodies, bodyIndex), kept));
      ClearSelection();
      bIsDirty := true;
      bShapesDirty := true;
    }

    /** Whether `AddConstraintBetweenBodies(i1, i2)` adds a constraint. */
    predicate CanAddConstraint(i1: int, i2: int)
      reads this
    {
      EditingAsset.Some? &&
      0 <= i1 < |EditingAsset.value.Bodies| && 0 <= i2 < |EditingAsset.value.Bodies| && i1 != i2 &&
      EditingAsset.value.Bodies[i1].Some? && EditingAsset.value.Bodies[i2].Some? &&
      !HasConstraintBetween(EditingAsset.value.Constraints,
                            EditingAsset.value.Bodies[i1].value.BoneName, EditingAsset.value.Bodies[i2].value.BoneName)
    }

    /** Joins two distinct bodies with a default constraint (bone of `i1`
        first) and selects it; refused when either index is out of range
        or empty, they are equal, or the two bones are already joined in
        either order (`AddedConstraintIsFound`). */
    method AddConstraintBetweenBodies(i1: int, i2: int)
      modifies this
      ensures !old(CanAddConstraint(i1, i2)) ==>
                EditingAsset == old(EditingAsset) && SelectedConstraintIndex == old(SelectedConstraintIndex) &&
                SelectedBodyIndex == old(SelectedBodyIndex) && bIsDirty == old(bIsDirty) &&
                bConstraintsDirty == old(bConstraintsDirty)
      ensures old(CanAddConstraint(i1, i2)) ==>
                var asset := old(EditingAsset).value;
                EditingAsset == Some(asset.(Constraints := asset.Constraints + [CreateDefaultConstraint(
                  asset.Bodies[i1].value.BoneName, asset.Bodies[i2].value.BoneName)])) &&
                SelectedConstraintIndex == |asset.Constraints| && SelectedBodyIndex == -1 &&
                SelectedShapeIndex == -1 && SelectedShapeType == NoShape && bIsDirty && bConstraintsDirty
      ensures CurrentFilePath == old(CurrentFilePath)
    {
      if EditingAsset.None? {
        return;
      }
      var asset := EditingAsset.value;
      if i1 < 0 || i1 >= |asset.Bodies| || i2 < 0 || i2 >= |asset.Bodies| || i1 == i2 {
        return;
      }
      if asset.Bodies[i1].None? || asset.Bodies[i2].None? {
        return;
      }
      var name1 := asset.Bodies[i1].value.BoneName;
      var name2 := asset.Bodies[i2].value.BoneName;
      var i := 0;
      while i < |asset.Constraints|
        invariant 0 <= i <= |asset.Constraints|
        invariant !HasConstraintBetween(asset.Constraints[..i], name1, name2)
      {
        var c := asset.Constraints[i];
        if (c.ConstraintBone1 == name1 && c.ConstraintBone2 == name2) ||
           (c.ConstraintBone1 == name2 && c.ConstraintBone2 == name1) {
          assert asset.Constraints[i] == c;
          return;
        }
        assert forall j :: 0 <= j < i + 1 ==> asset.Constraints[..i + 1][j] == asset.Constraints[j];
        i := i + 1;
      }
      assert asset.Constraints[..i] == asset.Constraints;
      EditingAsset := Some(asset.(Constraints := asset.Constraints + [CreateDefaultConstraint(name1, name2)]));
      SelectConstraint(|asset.Constraints|);
      bIsDirty := true;
      bConstraintsDirty := true;
    }

    /** Whether `DeleteSelectedShape` removes a shape. */
    predicate CanDeleteSelectedShape()
      reads this
    {
      EditingAsset.Some? && 0 <= SelectedBodyIndex < |EditingAsset.value.Bodies| && SelectedShapeIndex >= 0 &&
      SelectedShapeType != NoShape && EditingAsset.value.Bodies[SelectedBodyIndex].Some? &&
      SelectedShapeIndex < GetShapeCountByType(EditingAsset.value.Bodies[SelectedBodyIndex], SelectedShapeType)
    }

    /** Removes the selected shape from the selected body; the body itself
        goes (with its constraints) once it has no sphere, box or capsule
        left. The selection is then cleared. Without a selected shape in
        range nothing changes. */
    method DeleteSelectedShape()
      requires EditingAsset.Some? && SelectedBodyIndex >= 0 && SelectedShapeIndex >= 0 && SelectedShapeType != NoShape ==>
                 SelectedBodyIndex < |EditingAsset.value.Bodies|
      modifies this
      ensures !old(CanDeleteSelectedShape()) ==>
                EditingAsset == old(EditingAsset) && SelectedBodyIndex == old(SelectedBodyIndex) &&
                SelectedShapeIndex == old(SelectedShapeIndex) && SelectedShapeType == old(SelectedShapeType) &&
                bIsDirty == old(bIsDirty)
      ensures old(CanDeleteSelectedShape()) ==>
                var asset := old(EditingAsset).value;
                var b := old(SelectedBodyIndex);
                var body := RemoveShape(asset.Bodies[b].value, old(SelectedShapeType), old(SelectedShapeIndex));
                EditingAsset == Some(
                  if HasNoPrimitiveShapes(body)
                  then UPhysicsAsset(RemoveAt(asset.Bodies, b), KeepUnrelated(asset.Constraints, body.BoneName))
                  else asset.(Bodies := asset.Bodies[b := Some(body)])) &&
                NothingSelected() && bIsDirty
      ensures CurrentFilePath == old(CurrentFilePath)
    {
      if EditingAsset.None? || SelectedBodyIndex < 0 || SelectedShapeIndex < 0 || SelectedShapeType == NoShape {
        return;
      }
      var asset := EditingAsset.value;
      var b := SelectedBodyIndex;
      if asset.Bodies[b].None? {
        return;
      }
      var body := asset.Bodies[b].value;
      if SelectedShapeIndex >= GetShapeCountByType(Some(body), SelectedShapeType) {
        return;
      }
      body := RemoveShape(body, SelectedShapeType, SelectedShapeIndex);
      EditingAsset := Some(asset.(Bodies := asset.Bodies[b := Some(body)]));
      bIsDirty := true;
      if HasNoPrimitiveShapes(body) {
        RemoveBody(b);
      }
      ClearSelection();
    }
  }
}
