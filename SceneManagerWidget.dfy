/** The scene manager's actor tree (TL2/UI/Widget/SceneManagerWidget.cpp):
    actors grouped under category nodes named after the prefix of the
    actor's name, category visibility and expansion toggles, and the
    lookup of an actor's node.

    Tree nodes are held by value in the widget's `RootNodes`; a node is
    addressed by its position (`NodeRef`) where the source hands out a
    pointer. Actors are compared by their `Id`, as the source compares
    actor pointers. */
module SceneManagerWidget {
  import opened Text

  datatype AActor = AActor(Id: nat, Name: string, bVisible: bool)

  /** An actor's row under a category. */
  datatype FActorNode = FActorNode(Actor: AActor, bIsVisible: bool)

  /** A root row: a category with its actor rows, or an actor placed at
      the root, which the lookup still accepts. */
  datatype FActorTreeNode =
    | CategoryNode(CategoryName: string, Children: seq<FActorNode>, bIsVisible: bool, bIsExpanded: bool)
    | ActorNode(Actor: AActor, bIsVisible: bool)

  /** Where a node sits: a root row, or row `j` under root `i`. */
  datatype NodeRef = Root(i: nat) | Child(i: nat, j: nat)

  /** A fresh category row: no actors yet, visible and collapsed. */
  function NewCategory(name: string): FActorTreeNode
  {
    CategoryNode(name, [], true, false)
  }

  /** `GetActorCategory`: `Unknown` for no actor, else the actor's name up
      to its first `_`, or the whole name when it has none. */
  function GetActorCategory(actor: Option<AActor>): (r: string)
    ensures actor.None? ==> r == "Unknown"
    ensures actor.Some? ==>
              var name := actor.value.Name;
              |r| <= |name| && r == name[..|r|] &&
              (forall k :: 0 <= k < |r| ==> r[k] != '_') &&
              (|r| < |name| ==> name[|r|] == '_')
  {
    match actor
    case None => "Unknown"
    case Some(a) =>
      var i := IndexOfChar(a.Name, '_', 0);
      IndexOfCharFirst(a.Name, '_', 0);
      a.Name[..i]
  }

  predicate IsCategoryNamed(node: FActorTreeNode, name: string)
  {
    node.CategoryNode? && node.CategoryName == name
  }

  /** The first category row named `name`, or -1. */
  function CategoryIndex(roots: seq<FActorTreeNode>, name: string): (r: int)
    ensures -1 <= r < |roots|
    ensures r >= 0 ==> IsCategoryNamed(roots[r], name)
    ensures forall k :: 0 <= k < |roots| && (r == -1 || k < r) ==> !IsCategoryNamed(roots[k], name)
  {
    if roots == [] then -1
    else if IsCategoryNamed(roots[0], name) then 0
    else
      var r := CategoryIndex(roots[1..], name);
      assert forall k :: 1 <= k < |roots| ==> roots[k] == roots[1..][k - 1];
      if r < 0 then -1 else r + 1
  }

  /** The row made for an actor, showing its own visibility. */
  function NodeFor(a: AActor): FActorNode
  {
    FActorNode(a, a.bVisible)
  }

  /** One step of the grouping loop: the actor's row is appended to its
      category, which is created at the end when missing. */
  function AddActor(roots: seq<FActorTreeNode>, a: AActor): seq<FActorTreeNode>
  {
    var c := GetActorCategory(Some(a));
    var i := CategoryIndex(roots, c);
    if i < 0 then roots + [NewCategory(c).(Children := [NodeFor(a)])]
    else roots[i := roots[i].(Children := roots[i].Children + [NodeFor(a)])]
  }

  /** The first loop of `BuildCategorizedHierarchy`: every actor placed in
      turn; missing actors are skipped. */
  function Grouped(roots: seq<FActorTreeNode>, actors: seq<Option<AActor>>): seq<FActorTreeNode>
  {
    if actors == [] then roots
    else
      var front := Grouped(roots, actors[..|actors| - 1]);
      match actors[|actors| - 1]
      case None => front
      case Some(a) => AddActor(front, a)
  }

  /** The rows of the actors of category `c`, in actor order. */
  function RowsOf(actors: seq<Option<AActor>>, c: string): seq<FActorNode>
  {
    if actors == [] then []
    else
      var last := actors[|actors| - 1];
      RowsOf(actors[..|actors| - 1], c) +
      (if last.Some? && GetActorCategory(last) == c then [NodeFor(last.value)] else [])
  }

  /** The tree built from `actors`: only category rows, no two with the
      same name, each holding exactly the rows of its category's actors
      in actor order (so none empty), and a row for every actor's
      category. */
  ghost predicate GroupsActors(roots: seq<FActorTreeNode>, actors: seq<Option<AActor>>)
  {
    (forall i :: 0 <= i < |roots| ==> roots[i].CategoryNode?) &&
    (forall i, j :: 0 <= i < j < |roots| ==> roots[i].CategoryName != roots[j].CategoryName) &&
    (forall i :: 0 <= i < |roots| ==> roots[i].Children == RowsOf(actors, roots[i].CategoryName) && roots[i].Children != []) &&
    (forall k :: 0 <= k < |actors| && actors[k].Some? ==> CategoryIndex(roots, GetActorCategory(actors[k])) >= 0)
  }

  /** One more actor adds its row to its own category's rows only. */
  lemma RowsOfSnoc(actors: seq<Option<AActor>>, a: AActor, name: string)
    ensures RowsOf(actors + [Some(a)], name) ==
            RowsOf(actors, name) + (if GetActorCategory(Some(a)) == name then [NodeFor(a)] else [])
  {
    assert (actors + [Some(a)])[..|actors|] == actors;
  }

  /** Where `AddActor` puts the actor: a new last category row, or the
      end of the existing row of its category; no other row changes. */
  lemma AddActorAt(roots: seq<FActorTreeNode>, a: AActor)
    ensures var c := GetActorCategory(Some(a));
            var ci := CategoryIndex(roots, c);
            var r := AddActor(roots, a);
            (ci < 0 ==> |r| == |roots| + 1 && r[|roots|] == CategoryNode(c, [NodeFor(a)], true, false)) &&
            (ci >= 0 ==> |r| == |roots| && r[ci] == CategoryNode(c, roots[ci].Children + [NodeFor(a)], roots[ci].bIsVisible, roots[ci].bIsExpanded)) &&
            forall i :: 0 <= i < |roots| && i != ci ==> r[i] == roots[i]
  {
  }

  /** Placing one more actor keeps `GroupsActors`. */
  lemma AddActorGroups(roots: seq<FActorTreeNode>, actors: seq<Option<AActor>>, a: AActor)
    requires GroupsActors(roots, actors)
    ensures GroupsActors(AddActor(roots, a), actors + [Some(a)])
  {
    var all := actors + [Some(a)];
    var c := GetActorCategory(Some(a));
    var r := AddActor(roots, a);
    var ci := CategoryIndex(roots, c);
    var at := if ci < 0 then |roots| else ci;
    AddActorAt(roots, a);
    if ci < 0 {
      RowsOfNone(actors, roots, c);
    }
    assert r[at].CategoryName == c && r[at].Children == RowsOf(actors, c) + [NodeFor(a)];
    forall i | 0 <= i < |r|
      ensures r[i].CategoryNode? && r[i].Children == RowsOf(all, r[i].CategoryName) && r[i].Children != []
    {
      RowsOfSnoc(actors, a, r[i].CategoryName);
      if i != at {
        assert r[i] == roots[i] && roots[i].CategoryName != c;
      }
    }
    forall i, j | 0 <= i < j < |r|
      ensures r[i].CategoryName != r[j].CategoryName
    {
      if i != at && j != at {
        assert r[i] == roots[i] && r[j] == roots[j];
      } else if ci < 0 {
        assert j == at && r[i] == roots[i] && !IsCategoryNamed(roots[i], c);
      }
    }
    forall k | 0 <= k < |all| && all[k].Some?
      ensures CategoryIndex(r, GetActorCategory(all[k])) >= 0
    {
      var ck := GetActorCategory(all[k]);
      if k < |actors| {
        assert all[k] == actors[k];
        var j := CategoryIndex(roots, ck);
        assert IsCategoryNamed(roots[j], ck) && IsCategoryNamed(r[j], ck);
      } else {
        assert IsCategoryNamed(r[at], c);
      }
    }
  }

  /** A category with no row has no actors. */
  lemma {:induction false} RowsOfNone(actors: seq<Option<AActor>>, roots: seq<FActorTreeNode>, c: string)
    requires forall k :: 0 <= k < |actors| && actors[k].Some? ==> CategoryIndex(roots, GetActorCategory(actors[k])) >= 0
    requires CategoryIndex(roots, c) < 0
    ensures RowsOf(actors, c) == []
  {
    if actors != [] {
      var front := actors[..|actors| - 1];
      assert forall k :: 0 <= k < |front| ==> front[k] == actors[k];
      RowsOfNone(front, roots, c);
    }
  }

  /** Built from an empty tree, `Grouped` places each present actor
      exactly once: under the one category row of its name, in actor
      order. */
  lemma {:induction false} GroupedGroupsActors(actors: seq<Option<AActor>>)
    ensures GroupsActors(Grouped([], actors), actors)
  {
    if actors != [] {
      var front := actors[..|actors| - 1];
      GroupedGroupsActors(front);
      assert actors == front + [actors[|actors| - 1]];
      match actors[|actors| - 1]
      case None =>
        var g := Grouped([], front);
        forall name
          ensures RowsOf(actors, name) == RowsOf(front, name)
        {
        }
        forall k | 0 <= k < |actors| && actors[k].Some?
          ensures CategoryIndex(g, GetActorCategory(actors[k])) >= 0
        {
          assert actors[k] == front[k];
        }
      case Some(a) =>
        AddActorGroups(Grouped([], front), front, a);
    }
  }

  /** Some actor row is visible. */
  predicate AnyVisible(children: seq<FActorNode>)
  {
    exists j :: 0 <= j < |children| && children[j].bIsVisible
  }

  /** A row after the visibility pass: a category shows as visible
      exactly when one of its actors does. */
  function Revisible(node: FActorTreeNode): FActorTreeNode
  {
    match node
    case CategoryNode(name, children, _, expanded) => CategoryNode(name, children, AnyVisible(children), expanded)
    case ActorNode(_, _) => node
  }

  /** The second loop of `BuildCategorizedHierarchy`: `Revisible` on
      every row. */
  function WithCategoryVisibility(roots: seq<FActorTreeNode>): (r: seq<FActorTreeNode>)
    ensures |r| == |roots|
  {
    if roots == [] then [] else WithCategoryVisibility(roots[..|roots| - 1]) + [Revisible(roots[|roots| - 1])]
  }

  /** Only the visibility of category rows changes, and a category is
      visible exactly when one of its actor rows is. */
  lemma {:induction false} CategoryVisibleIffChildVisible(roots: seq<FActorTreeNode>)
    ensures var r := WithCategoryVisibility(roots);
            forall i :: 0 <= i < |roots| ==>
              (roots[i].ActorNode? ==> r[i] == roots[i]) &&
              (roots[i].CategoryNode? ==>
                 r[i].CategoryNode? && r[i].CategoryName == roots[i].CategoryName &&
                 r[i].Children == roots[i].Children && r[i].bIsExpanded == roots[i].bIsExpanded &&
                 (r[i].bIsVisible <==> AnyVisible(roots[i].Children)))
  {
    if roots != [] {
      var front := roots[..|roots| - 1];
      CategoryVisibleIffChildVisible(front);
      forall i | 0 <= i < |roots| - 1
        ensures roots[i] == front[i]
      {
      }
    }
  }

  /** The visibility loop's inner search. */
  method AnyChildVisible(children: seq<FActorNode>) returns (b: bool)
    ensures b <==> AnyVisible(children)
  {
    b := false;
    var j := 0;
    while j < |children|
      invariant 0 <= j <= |children|
      invariant forall k :: 0 <= k < j ==> !children[k].bIsVisible
    {
      if children[j].bIsVisible {
        return true;
      }
      j := j + 1;
    }
  }

  /** `children` with every row showing `v`. */
  function AllShowing(children: seq<FActorNode>, v: bool): (r: seq<FActorNode>)
    ensures |r| == |children|
    ensures forall j :: 0 <= j < |r| ==> r[j].Actor == children[j].Actor && r[j].bIsVisible == v
  {
    if children == [] then []
    else AllShowing(children[..|children| - 1], v) + [children[|children| - 1].(bIsVisible := v)]
  }

  /** The hidden-in-game flags after the actors of `children` are all set
      to `hidden`, in row order. */
  function HideAll(hiddenInGame: map<nat, bool>, children: seq<FActorNode>, hidden: bool): map<nat, bool>
  {
    if children == [] then hiddenInGame
    else HideAll(hiddenInGame, children[..|children| - 1], hidden)[children[|children| - 1].Actor.Id := hidden]
  }

  /** Every actor of `children` ends up with `hidden`; every other actor
      keeps its flag, or its lack of one. */
  lemma {:induction false} HideAllSets(hiddenInGame: map<nat, bool>, children: seq<FActorNode>, hidden: bool)
    ensures var r := HideAll(hiddenInGame, children, hidden);
            forall j :: 0 <= j < |children| ==> children[j].Actor.Id in r && r[children[j].Actor.Id] == hidden
    ensures var r := HideAll(hiddenInGame, children, hidden);
            forall id :: (forall j :: 0 <= j < |children| ==> children[j].Actor.Id != id) ==>
              (id in r <==> id in hiddenInGame) && (id in r ==> r[id] == hiddenInGame[id])
  {
    if children != [] {
      var front := children[..|children| - 1];
      HideAllSets(hiddenInGame, front, hidden);
      assert forall j :: 0 <= j < |front| ==> front[j] == children[j];
    }
  }

  class USceneManagerWidget {
    var RootNodes: seq<FActorTreeNode>
    /** The hidden-in-game flag the widget last gave each actor. */
    var ActorHiddenInGame: map<nat, bool>

    constructor ()
      ensures RootNodes == [] && ActorHiddenInGame == map[]
    {
      RootNodes := [];
      ActorHiddenInGame := map[];
    }

    /** `ClearActorTree`. */
    method ClearActorTree()
      modifies this
      ensures RootNodes == [] && ActorHiddenInGame == old(ActorHiddenInGame)
    {
      RootNodes := [];
    }

    /** `FindOrCreateCategoryNode`: the first category row named `name`,
        else a new one appended at the end; so category names stay
        unique. */
    method FindOrCreateCategoryNode(name: string) returns (index: nat)
      modifies this
      ensures ActorHiddenInGame == old(ActorHiddenInGame)
      ensures CategoryIndex(old(RootNodes), name) >= 0 ==>
                RootNodes == old(RootNodes) && index == CategoryIndex(old(RootNodes), name)
      ensures CategoryIndex(old(RootNodes), name) < 0 ==>
                RootNodes == old(RootNodes) + [NewCategory(name)] && index == |old(RootNodes)|
      ensures index < |RootNodes| && IsCategoryNamed(RootNodes[index], name)
    {
      var i := 0;
      while i < |RootNodes|
        invariant 0 <= i <= |RootNodes|
        invariant forall k :: 0 <= k < i ==> !IsCategoryNamed(RootNodes[k], name)
      {
        if IsCategoryNamed(RootNodes[i], name) {
          return i;
        }
        i := i + 1;
      }
      RootNodes := RootNodes + [NewCategory(name)];
      index := |RootNodes| - 1;
    }

    /** The body of the grouping loop: the actor's row goes to the end
        of its category's row, found or created. */
    method PlaceActor(a: AActor)
      modifies this
      ensures ActorHiddenInGame == old(ActorHiddenInGame)
      ensures RootNodes == AddActor(old(RootNodes), a)
    {
      var c := GetActorCategory(Some(a));
      var index := FindOrCreateCategoryNode(c);
      var node := RootNodes[index];
      RootNodes := RootNodes[index := CategoryNode(c, node.Children + [NodeFor(a)], node.bIsVisible, node.bIsExpanded)];
      AddActorAt(old(RootNodes), a);
      var r := AddActor(old(RootNodes), a);
      if CategoryIndex(old(RootNodes), c) < 0 {
        assert node == NewCategory(c);
      }
      assert |RootNodes| == |r|;
      forall i | 0 <= i < |r|
        ensures RootNodes[i] == r[i]
      {
      }
    }

    /** `BuildCategorizedHierarchy` over the world's actors (nothing
        without a world): every present actor gets a row under its
        category (`Grouped`), then each category's visibility is derived
        from its rows (`WithCategoryVisibility`). From an empty tree this
        places each actor exactly once (`GroupedGroupsActors`) and makes a
        category visible exactly when one of its actors is
        (`CategoryVisibleIffChildVisible`). */
    method BuildCategorizedHierarchy(world: Option<seq<Option<AActor>>>)
      modifies this
      ensures ActorHiddenInGame == old(ActorHiddenInGame)
      ensures world.None? ==> RootNodes == old(RootNodes)
      ensures world.Some? ==> RootNodes == WithCategoryVisibility(Grouped(old(RootNodes), world.value))
    {
      if world.None? {
        return;
      }
      var actors := world.value;
      var i := 0;
      while i < |actors|
        invariant 0 <= i <= |actors|
        invariant RootNodes == Grouped(old(RootNodes), actors[..i])
        invariant ActorHiddenInGame == old(ActorHiddenInGame)
      {
        assert actors[..i + 1][..i] == actors[..i];
        if actors[i].Some? {
          PlaceActor(actors[i].value);
        }
        i := i + 1;
      }
      assert actors[..i] == actors;
      RootNodes := ApplyCategoryVisibility(RootNodes);
    }

    /** `HandleCategorySelection`: a category row's expansion flips;
        anything else is left alone. */
    method HandleCategorySelection(index: int)
      modifies this
      ensures ActorHiddenInGame == old(ActorHiddenInGame)
      ensures 0 <= index < |old(RootNodes)| && old(RootNodes)[index].CategoryNode? ==>
                RootNodes == old(RootNodes)[index := old(RootNodes)[index].(bIsExpanded := !old(RootNodes)[index].bIsExpanded)]
      ensures !(0 <= index < |old(RootNodes)| && old(RootNodes)[index].CategoryNode?) ==> RootNodes == old(RootNodes)
    {
      if 0 <= index < |RootNodes| && RootNodes[index].CategoryNode? {
        RootNodes := RootNodes[index := RootNodes[index].(bIsExpanded := !RootNodes[index].bIsExpanded)];
      }
    }

    /** `HandleCategoryVisibilityToggle`: a category row's visibility
        flips, and each of its actor rows and actors takes the new value;
        anything else is left alone. */
    method HandleCategoryVisibilityToggle(index: int)
      modifies this
      ensures !(0 <= index < |old(RootNodes)| && old(RootNodes)[index].CategoryNode?) ==>
                RootNodes == old(RootNodes) && ActorHiddenInGame == old(ActorHiddenInGame)
      ensures 0 <= index < |old(RootNodes)| && old(RootNodes)[index].CategoryNode? ==>
                var node := old(RootNodes)[index];
                var v := !node.bIsVisible;
                RootNodes == old(RootNodes)[index := CategoryNode(node.CategoryName, AllShowing(node.Children, v), v, node.bIsExpanded)] &&
                ActorHiddenInGame == HideAll(old(ActorHiddenInGame), node.Children, !v)
    {
      if !(0 <= index < |RootNodes| && RootNodes[index].CategoryNode?) {
        return;
      }
      var node := RootNodes[index];
      var v := !node.bIsVisible;
      var shown, hidden := ShowChildren(node.Children, v, ActorHiddenInGame);
      RootNodes := RootNodes[index := CategoryNode(node.CategoryName, shown, v, node.bIsExpanded)];
      ActorHiddenInGame := hidden;
    }

    /** `ExpandAllCategories` (`expand`) and `CollapseAllCategories`:
        every category row takes the new expansion, and nothing else
        changes. */
    method SetAllCategoriesExpanded(expand: bool)
      modifies this
      ensures ActorHiddenInGame == old(ActorHiddenInGame)
      ensures |RootNodes| == |old(RootNodes)|
      ensures forall i :: 0 <= i < |RootNodes| ==>
                if old(RootNodes)[i].CategoryNode? then RootNodes[i] == old(RootNodes)[i].(bIsExpanded := expand)
                else RootNodes[i] == old(RootNodes)[i]
    {
      var roots := RootNodes;
      var i := 0;
      while i < |roots|
        invariant 0 <= i <= |roots| && |roots| == |old(RootNodes)|
        invariant forall k :: 0 <= k < |roots| ==>
                    if k < i && old(RootNodes)[k].CategoryNode? then roots[k] == old(RootNodes)[k].(bIsExpanded := expand)
                    else roots[k] == old(RootNodes)[k]
      {
        if roots[i].CategoryNode? {
          roots := roots[i := roots[i].(bIsExpanded := expand)];
        }
        i := i + 1;
      }
      RootNodes := roots;
    }

    /** Row `r` exists and shows `id`. */
    predicate ShowsActor(r: NodeRef, id: nat)
      reads this
    {
      match r
      case Root(i) => i < |RootNodes| && RootNodes[i].ActorNode? && RootNodes[i].Actor.Id == id
      case Child(i, j) =>
        i < |RootNodes| && RootNodes[i].CategoryNode? && j < |RootNodes[i].Children| &&
        RootNodes[i].Children[j].Actor.Id == id
    }

    /** `FindNodeByActor`: none for no actor; otherwise a row showing the
        actor, searching each root row and then its children, and none
        exactly when no row shows it. */
    method FindNodeByActor(actor: Option<AActor>) returns (r: Option<NodeRef>)
      ensures actor.None? ==> r.None?
      ensures r.Some? ==> actor.Some? && ShowsActor(r.value, actor.value.Id)
      ensures r.None? && actor.Some? ==>
                forall i :: 0 <= i < |RootNodes| ==>
                  !ShowsActor(Root(i), actor.value.Id) &&
                  forall j :: RootNodes[i].CategoryNode? && 0 <= j < |RootNodes[i].Children| ==>
                    !ShowsActor(Child(i, j), actor.value.Id)
    {
      if actor.None? {
        return None;
      }
      var id := actor.value.Id;
      var i := 0;
      while i < |RootNodes|
        invariant 0 <= i <= |RootNodes|
        invariant forall k :: 0 <= k < i ==>
                    !ShowsActor(Root(k), id) &&
                    forall j :: RootNodes[k].CategoryNode? && 0 <= j < |RootNodes[k].Children| ==> !ShowsActor(Child(k, j), id)
      {
        var node := RootNodes[i];
        if node.ActorNode? && node.Actor.Id == id {
          return Some(Root(i));
        }
        if node.CategoryNode? {
          var j := 0;
          while j < |node.Children|
            invariant 0 <= j <= |node.Children|
            invariant forall k :: 0 <= k < j ==> !ShowsActor(Child(i, k), id)
          {
            if node.Children[j].Actor.Id == id {
              return Some(Child(i, j));
            }
            j := j + 1;
          }
        }
        i := i + 1;
      }
      return None;
    }
  }

  /** The visibility loop of `BuildCategorizedHierarchy`. */
  method ApplyCategoryVisibility(roots: seq<FActorTreeNode>) returns (done: seq<FActorTreeNode>)
    ensures done == WithCategoryVisibility(roots)
  {
    done := [];
    var i := 0;
    while i < |roots|
      invariant 0 <= i <= |roots|
      invariant done == WithCategoryVisibility(roots[..i])
    {
      assert roots[..i + 1][..i] == roots[..i];
      var node := roots[i];
      if node.CategoryNode? {
        var any := AnyChildVisible(node.Children);
        node := CategoryNode(node.CategoryName, node.Children, any, node.bIsExpanded);
      }
      assert node == Revisible(roots[i]);
      done := done + [node];
      i := i + 1;
    }
    assert roots[..i] == roots;
  }

  /** The child loop of `HandleCategoryVisibilityToggle`: every row shows
      `v` and every actor is hidden exactly when `v` is false. */
  method ShowChildren(children: seq<FActorNode>, v: bool, hiddenInGame: map<nat, bool>)
    returns (shown: seq<FActorNode>, hidden: map<nat, bool>)
    ensures shown == AllShowing(children, v)
    ensures hidden == HideAll(hiddenInGame, children, !v)
  {
    shown := [];
    hidden := hiddenInGame;
    var j := 0;
    while j < |children|
      invariant 0 <= j <= |children|
      invariant shown == AllShowing(children[..j], v)
      invariant hidden == HideAll(hiddenInGame, children[..j], !v)
    {
      assert children[..j + 1][..j] == children[..j];
      hidden := hidden[children[j].Actor.Id := !v];
      shown := shown + [children[j].(bIsVisible := v)];
      j := j + 1;
    }
    assert children[..j] == children;
  }

}
