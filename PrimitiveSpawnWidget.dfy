/** The primitive spawner panel (TL2/UI/Widget/PrimitiveSpawnWidget.cpp):
    the mesh list's display names, the default mesh choice, the clamp on
    the number of actors to spawn, and the spawn loop's choice of mesh and
    actor names.

    The mesh paths the resource manager lists, the world, and whether each
    spawn attempt produced an actor are given; transforms drawn at random,
    logging and the ImGui calls are left out. */
module PrimitiveSpawnWidget {
  import opened Text
  import World
  import TargetActorTransformWidget

  /** The panel's `GetBaseNameNoExt` is, character for character, the
      world's `RemoveObjExtension`; unlike the transform panel's helper it
      keeps an upper-case extension: `dir/stem.OBJ` is shown as
      `stem.OBJ` here and as `stem` there. */
  lemma BaseNameIsCaseSensitive(dir: string, stem: string)
    requires forall k :: 0 <= k < |stem| ==> !IsPathSeparator(stem[k])
    ensures World.RemoveObjExtension(dir + "/" + stem + ".OBJ") == stem + ".OBJ"
    ensures TargetActorTransformWidget.BaseNameNoExt(dir + "/" + stem + ".OBJ") == stem
  {
    var upper := ".OBJ";
    UpperObjLowersToObj();
    LowerKeepsNoSeparator(upper, ".obj");
    forall k | 0 <= k < |stem + upper|
      ensures !IsPathSeparator((stem + upper)[k])
    {
      if k >= |stem| {
        assert (stem + upper)[k] == upper[k - |stem|];
      }
    }
    assert (stem + upper)[|stem + upper| - 4..] == upper;
    assert upper[1] != ".obj"[1];
    World.RemoveObjExtensionOfOtherEntry(dir, stem + upper);
    assert dir + "/" + stem + upper == dir + "/" + (stem + upper);
    TargetActorTransformWidget.BaseNameNoExtOfEntry(dir, stem, upper);
  }

  lemma UpperObjLowersToObj()
    ensures Lower(".OBJ") == ".obj"
  {
    var upper := ".OBJ";
    assert LowerChar('O') == 'o' && LowerChar('B') == 'b' && LowerChar('J') == 'j';
    assert Lower(upper)[1] == 'o' && Lower(upper)[2] == 'b' && Lower(upper)[3] == 'j';
  }

  /** The default mesh path names the mesh `Cube`, so the panel's second
      test for the default mesh never decides anything the first missed. */
  lemma DefaultMeshIsCube()
    ensures World.RemoveObjExtension(DefaultMeshPath) == "Cube"
  {
    assert DefaultMeshPath == "Data" + "/" + "Cube" + ".obj";
    var stem := "Cube";
    assert forall k :: 0 <= k < |stem| ==> stem[k] != '/' && stem[k] != '\\';
    World.RemoveObjExtensionOfEntry("Data", stem);
  }

  /** The entries of the primitive type combo box. */
  const PrimitiveTypes: seq<string> := ["StaticMesh"]

  /** The mesh spawned when no mesh of the list is selected. */
  const DefaultMeshPath: string := "Data/Cube.obj"

  /** `GetPrimitiveTypeName`: the name of each entry of the combo box, and
      `Unknown` for any other index. */
  function GetPrimitiveTypeName(typeIndex: int): (r: string)
    ensures 0 <= typeIndex < |PrimitiveTypes| ==> r == PrimitiveTypes[typeIndex]
    ensures !(0 <= typeIndex < |PrimitiveTypes|) ==> r == "Unknown"
  {
    if typeIndex == 0 then "StaticMesh" else "Unknown"
  }

  /** Whether a listed mesh is taken as the default one: its display name is
      `Cube`, or it is the default mesh path. */
  predicate IsCubeMesh(path: string)
  {
    World.RemoveObjExtension(path) == "Cube" || path == DefaultMeshPath
  }

  /** None of the first `i` listed meshes is a default one. */
  predicate NoCubeBefore(paths: seq<string>, i: nat)
    requires i <= |paths|
  {
    forall j :: 0 <= j < i ==> !IsCubeMesh(paths[j])
  }

  lemma NoCubeBeforeStep(paths: seq<string>, i: nat)
    requires i < |paths| && NoCubeBefore(paths, i) && !IsCubeMesh(paths[i])
    ensures NoCubeBefore(paths, i + 1)
  {
  }

  /** The index of the first element of `xs` that `wanted` accepts, -1
      when none is. */
  function FirstWhere<T>(wanted: T -> bool, xs: seq<T>): (i: int)
    ensures -1 <= i < |xs|
    ensures i >= 0 ==> wanted(xs[i]) && forall j :: 0 <= j < i ==> !wanted(xs[j])
    ensures i == -1 ==> forall j :: 0 <= j < |xs| ==> !wanted(xs[j])
  {
    if xs == [] then -1
    else
      var i := FirstWhere(wanted, xs[..|xs| - 1]);
      if i >= 0 then i
      else if wanted(xs[|xs| - 1]) then |xs| - 1
      else -1
  }

  lemma FirstWhereAt<T>(wanted: T -> bool, xs: seq<T>, i: nat)
    requires i < |xs| && wanted(xs[i])
    requires forall j :: 0 <= j < i ==> !wanted(xs[j])
    ensures FirstWhere(wanted, xs) == i
  {
  }

  lemma FirstWhereNone<T>(wanted: T -> bool, xs: seq<T>)
    requires forall j :: 0 <= j < |xs| ==> !wanted(xs[j])
    ensures FirstWhere(wanted, xs) == -1
  {
  }

  /** The mesh a spawn uses and the base of its actor's name: the selected
      mesh and its display name when the index selects one of the listed
      meshes, otherwise the default mesh and the base `StaticMesh`. */
  function MeshChoice(paths: seq<string>, selected: int): (choice: (string, string))
  {
    if 0 <= selected < |paths| then (paths[selected], World.RemoveObjExtension(paths[selected]))
    else (DefaultMeshPath, "StaticMesh")
  }

  /** The mesh of a spawn is always a listed one or the default one, and
      the base of its actor's name never holds a path separator. */
  lemma MeshChoiceIsListedOrDefault(paths: seq<string>, selected: int)
    ensures var (mesh, base) := MeshChoice(paths, selected);
            (mesh in paths || mesh == DefaultMeshPath) &&
            (0 <= selected < |paths| ==> mesh == paths[selected] && base == World.RemoveObjExtension(mesh)) &&
            (!(0 <= selected < |paths|) ==> mesh == DefaultMeshPath && base == "StaticMesh") &&
            (forall k :: 0 <= k < |base| ==> !IsPathSeparator(base[k]))
  {
    if 0 <= selected < |paths| {
      World.RemoveObjExtensionIsFileStem(paths[selected]);
    } else {
      var base := "StaticMesh";
      assert forall k :: 0 <= k < |base| ==> base[k] != '/' && base[k] != '\\';
    }
  }

  /** The actors the attempts produced, in attempt order (`None` is a
      spawn that returned null). */
  function SpawnedIds(spawned: seq<Option<nat>>): seq<nat>
  {
    if spawned == [] then []
    else
      var last := spawned[|spawned| - 1];
      SpawnedIds(spawned[..|spawned| - 1]) + (if last.Some? then [last.value] else [])
  }

  /** `n` copies of `x`. */
  function Repeated(x: string, n: nat): (r: seq<string>)
    ensures |r| == n && forall k :: 0 <= k < n ==> r[k] == x
  {
    if n == 0 then [] else Repeated(x, n - 1) + [x]
  }

  /** The names the spawn loop gives `n` actors of one base whose counter
      stood at `first`. */
  function NumberedNames(base: string, first: nat, n: nat): (names: seq<string>)
    ensures |names| == n
    ensures forall k :: 0 <= k < n ==> names[k] == World.UniqueActorName(base, first + k)
  {
    if n == 0 then [] else NumberedNames(base, first, n - 1) + [World.UniqueActorName(base, first + n - 1)]
  }

  /** The names of one spawn round are pairwise distinct. */
  lemma NumberedNamesDistinct(base: string, first: nat, n: nat)
    ensures var names := NumberedNames(base, first, n);
            forall i, j :: 0 <= i < j < n ==> names[i] != names[j]
  {
    var names := NumberedNames(base, first, n);
    forall i, j | 0 <= i < j < n
      ensures names[i] != names[j]
    {
      World.UniqueActorNameInjective(base, first + i, base, first + j);
    }
  }

  class UPrimitiveSpawnWidget {
    var SelectedPrimitiveType: int
    var NumberOfSpawn: int
    var SelectedMeshIndex: int
    var CachedMeshFilePaths: seq<string>

    /** The panel's initial settings: the static mesh type, one actor, no
        mesh selected and no mesh listed. */
    constructor ()
      ensures SelectedPrimitiveType == 0 && NumberOfSpawn == 1
      ensures SelectedMeshIndex == -1 && CachedMeshFilePaths == []
    {
      SelectedPrimitiveType := 0;
      NumberOfSpawn := 1;
      SelectedMeshIndex := -1;
      CachedMeshFilePaths := [];
    }

    /** The spawn count field after the user typed `input`: kept between 1
        and 100. */
    method ClampNumberOfSpawn(input: int)
      modifies this`NumberOfSpawn
      ensures 1 <= NumberOfSpawn <= 100
      ensures 1 <= input <= 100 ==> NumberOfSpawn == input
      ensures input < 1 ==> NumberOfSpawn == 1
      ensures input > 100 ==> NumberOfSpawn == 100
    {
      NumberOfSpawn := input;
      var atMost := if 100 < NumberOfSpawn then 100 else NumberOfSpawn;
      NumberOfSpawn := if 1 < atMost then atMost else 1;
    }

    /** The mesh list is refreshed and, when no mesh is selected, the first
        default mesh of the list is selected (none stays -1). */
    method RefreshMeshList(paths: seq<string>)
      modifies this`CachedMeshFilePaths, this`SelectedMeshIndex
      ensures CachedMeshFilePaths == paths
      ensures old(SelectedMeshIndex) != -1 ==> SelectedMeshIndex == old(SelectedMeshIndex)
      ensures old(SelectedMeshIndex) == -1 ==> SelectedMeshIndex == FirstWhere(IsCubeMesh, paths)
    {
      CachedMeshFilePaths := paths;
      if SelectedMeshIndex == -1 {
        var i := 0;
        while i < |paths|
          invariant 0 <= i <= |paths|
          invariant SelectedMeshIndex == -1 && CachedMeshFilePaths == paths
          invariant NoCubeBefore(paths, i)
        {
          if IsCubeMesh(paths[i]) {
            FirstWhereAt(IsCubeMesh, paths, i);
            SelectedMeshIndex := i;
            return;
          }
          NoCubeBeforeStep(paths, i);
          i := i + 1;
        }
        FirstWhereNone(IsCubeMesh, paths);
      }
    }

    /** `SpawnActors`: nothing without a world; otherwise one attempt per
        count. `spawned` is what each `SpawnActor` call returned; an actor it
        produced joins the world's actor list and gets the chosen mesh and
        the next name of the chosen base. */
    method SpawnActors(world: World.UWorld?, spawned: seq<Option<nat>>)
      returns (meshes: seq<string>, names: seq<string>, successCount: nat)
      requires NumberOfSpawn <= |spawned|
      modifies world
      ensures world == null ==> meshes == [] && names == [] && successCount == 0
      ensures world != null ==>
                var attempts := if NumberOfSpawn < 0 then 0 else NumberOfSpawn;
                var (mesh, base) := MeshChoice(CachedMeshFilePaths, SelectedMeshIndex);
                world.Actors == old(world.Actors) + SpawnedIds(spawned[..attempts]) &&
                successCount == |SpawnedIds(spawned[..attempts])| &&
                meshes == Repeated(mesh, successCount) &&
                names == NumberedNames(base, World.CountIn(old(world.ObjectTypeCounts), base), successCount) &&
                world.ObjectTypeCounts ==
                  if successCount == 0 then old(world.ObjectTypeCounts)
                  else old(world.ObjectTypeCounts)[base := World.CountIn(old(world.ObjectTypeCounts), base) + successCount]
    {
      meshes, names, successCount := [], [], 0;
      if world == null {
        return;
      }
      var attempts := if NumberOfSpawn < 0 then 0 else NumberOfSpawn;
      var choice := MeshChoice(CachedMeshFilePaths, SelectedMeshIndex);
      var mesh, base := choice.0, choice.1;
      ghost var counts0 := world.ObjectTypeCounts;
      ghost var actors0 := world.Actors;
      ghost var first := World.CountIn(counts0, base);
      var i := 0;
      while i < NumberOfSpawn
        invariant 0 <= i <= attempts
        invariant world.Actors == actors0 + SpawnedIds(spawned[..i])
        invariant successCount == |SpawnedIds(spawned[..i])|
        invariant meshes == Repeated(mesh, successCount)
        invariant names == NumberedNames(base, first, successCount)
        invariant world.ObjectTypeCounts ==
                    if successCount == 0 then counts0 else counts0[base := first + successCount]
      {
        assert spawned[..i + 1][..i] == spawned[..i];
        if spawned[i].Some? {
          world.Actors := world.Actors + [spawned[i].value];
          var name := world.GenerateUniqueActorName(base);
          meshes := meshes + [mesh];
          names := names + [name];
          successCount := successCount + 1;
        }
        i := i + 1;
      }
    }
  }
}
