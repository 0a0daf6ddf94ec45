/** Helpers of the actor transform panel
    (Mundi/Source/Slate/Widgets/TargetActorTransformWidget.cpp): the display
    name of a mesh path, and the walk that marks a component and everything
    attached below it as visited.

    Components are handles (`nat`); a null pointer is `None`. The attachment
    tree is the map from a component to its attached children. */
module TargetActorTransformWidget {
  import opened Text

  /** Whether the last four characters of `path`, lower-cased, are `.obj`. */
  predicate HasObjSuffixIgnoringCase(path: string)
  {
    |path| >= 4 && Lower(path[|path| - 4..]) == ".obj"
  }

  /** `GetBaseNameNoExt`: the file name after the last `/` or `\\`, without
      a trailing `.obj` in any letter case; when the range would be
      inverted the text from the start of the file name is returned, which
      cannot happen. */
  function BaseNameNoExt(path: string): (r: string)
  {
    var start := FileNameStart(path);
    var end := if HasObjSuffixIgnoringCase(path) then |path| - 4 else |path|;
    if start <= end then path[start..end] else path[start..]
  }

  /** The display name holds no separator; it is the file name less its
      last four characters when they spell `.obj` in any case, and the
      whole file name otherwise. */
  lemma BaseNameNoExtIsFileStem(path: string)
    ensures var r := BaseNameNoExt(path);
            (forall k :: 0 <= k < |r| ==> !IsPathSeparator(r[k])) &&
            (HasObjSuffixIgnoringCase(path) ==> r + path[|path| - 4..] == FileNameOf(path)) &&
            (!HasObjSuffixIgnoringCase(path) ==> r == FileNameOf(path))
  {
    if HasObjSuffixIgnoringCase(path) {
      var ext := path[|path| - 4..];
      ObjHasNoSeparator();
      LowerKeepsNoSeparator(ext, ".obj");
      FileNameKeepsSuffix(path, ext);
    }
  }

  /** A mesh file `dir/stem` followed by `.obj` in any letter case gives
      the display name `stem`. */
  lemma BaseNameNoExtOfEntry(dir: string, stem: string, ext: string)
    requires forall k :: 0 <= k < |stem| ==> !IsPathSeparator(stem[k])
    requires Lower(ext) == ".obj"
    ensures BaseNameNoExt(dir + "/" + stem + ext) == stem
  {
    var path := dir + "/" + stem + ext;
    ObjHasNoSeparator();
    LowerKeepsNoSeparator(ext, ".obj");
    forall k | 0 <= k < |stem + ext|
      ensures !IsPathSeparator((stem + ext)[k])
    {
      if k >= |stem| {
        assert (stem + ext)[k] == ext[k - |stem|];
      }
    }
    assert path == dir + "/" + (stem + ext);
    FileNameStartOfDirEntry(dir, stem + ext);
    assert path[|path| - 4..] == ext;
    assert path[|dir| + 1..|path| - 4] == stem;
  }

  /** The children attached to component `n`, none when it has no entry. */
  function ChildrenOf(children: map<nat, seq<nat>>, n: nat): seq<nat>
  {
    if n in children then children[n] else []
  }

  /** Every component of the tree: those with an entry and their children. */
  ghost function Universe(children: map<nat, seq<nat>>): set<nat>
  {
    children.Keys + set n, i | n in children && 0 <= i < |children[n]| :: children[n][i]
  }

  /** Every child of a component the walk added was added too. */
  ghost predicate NewNodesClosed(children: map<nat, seq<nat>>, visited: set<nat>, result: set<nat>)
  {
    forall n :: n in result && n !in visited ==>
      forall j :: 0 <= j < |ChildrenOf(children, n)| ==> ChildrenOf(children, n)[j] in result
  }

  /** `path` runs from `root` to `n` along attachments and passes through
      no component of `visited`. */
  ghost predicate UnvisitedPath(children: map<nat, seq<nat>>, visited: set<nat>, root: nat, n: nat, path: seq<nat>)
  {
    |path| > 0 && path[0] == root && path[|path| - 1] == n &&
    AttachmentChain(children, path) &&
    forall k :: 0 <= k < |path| ==> path[k] !in visited
  }

  /** Every component the walk added is a descendant of the one it started
      from, reached through components that were not visited before. */
  ghost predicate NewNodesReached(children: map<nat, seq<nat>>, root: nat, visited: set<nat>, result: set<nat>)
  {
    forall n :: n in result && n !in visited ==> exists path :: UnvisitedPath(children, visited, root, n, path)
  }

  /** A path from a child extends to one from its parent. */
  lemma PrependParent(children: map<nat, seq<nat>>, visited: set<nat>, c: nat, kid: nat, n: nat, path: seq<nat>)
    requires c !in visited && kid in ChildrenOf(children, c)
    requires UnvisitedPath(children, visited, kid, n, path)
    ensures UnvisitedPath(children, visited, c, n, [c] + path)
  {
    var q := [c] + path;
    forall k | 0 < k < |q| ensures q[k] in ChildrenOf(children, q[k - 1]) {
      if k > 1 {
        assert q[k] == path[k - 1] && q[k - 1] == path[k - 2];
      }
    }
  }

  /** A path avoiding a larger set avoids a smaller one. */
  lemma PathAvoidsLess(children: map<nat, seq<nat>>, small: set<nat>, large: set<nat>, root: nat, n: nat, path: seq<nat>)
    requires small <= large && UnvisitedPath(children, large, root, n, path)
    ensures UnvisitedPath(children, small, root, n, path)
  {
  }

  /** `MarkComponentSubtreeVisited`: `visited` is the caller's set, passed
      in and handed back. A null or already visited component leaves it as
      it is; otherwise the component is added and the walk goes on into each
      attached child in order. */
  method MarkComponentSubtreeVisited(children: map<nat, seq<nat>>, component: Option<nat>, visited: set<nat>)
    returns (result: set<nat>)
    ensures visited <= result
    ensures component.None? || component.value in visited ==> result == visited
    ensures component.Some? ==> component.value in result
    ensures NewNodesClosed(children, visited, result)
    ensures component.Some? ==> NewNodesReached(children, component.value, visited, result)
    decreases Universe(children) - visited
  {
    if component.None? || component.value in visited {
      return visited;
    }
    var c := component.value;
    result := visited + {c};
    var kids := ChildrenOf(children, c);
    if |kids| > 0 {
      assert c in Universe(children);
    }
    assert UnvisitedPath(children, visited, c, c, [c]);
    var i := 0;
    while i < |kids|
      invariant 0 <= i <= |kids|
      invariant visited + {c} <= result
      invariant forall j :: 0 <= j < i ==> kids[j] in result
      invariant forall n :: n in result && n !in visited && n != c ==>
                  forall j :: 0 <= j < |ChildrenOf(children, n)| ==> ChildrenOf(children, n)[j] in result
      invariant NewNodesReached(children, c, visited, result)
    {
      ghost var before := result;
      assert kids[i] in ChildrenOf(children, c);
      result := MarkComponentSubtreeVisited(children, Some(kids[i]), result);
      forall n | n in result && n !in visited
        ensures exists path :: UnvisitedPath(children, visited, c, n, path)
      {
        if n !in before {
          var path :| UnvisitedPath(children, before, kids[i], n, path);
          PathAvoidsLess(children, visited, before, kids[i], n, path);
          PrependParent(children, visited, c, kids[i], n, path);
        }
      }
      i := i + 1;
    }
  }

  /** A chain of attachments `path[0]`, `path[1]`, ..., each the child of the
      one before. */
  ghost predicate AttachmentChain(children: map<nat, seq<nat>>, path: seq<nat>)
  {
    forall k :: 0 < k < |path| ==> path[k] in ChildrenOf(children, path[k - 1])
  }

  /** The walk adds every descendant of a component it added that it reaches
      without passing through a component that was already visited. */
  lemma {:induction false} ClosedHoldsDescendants(children: map<nat, seq<nat>>, visited: set<nat>, result: set<nat>, path: seq<nat>)
    requires NewNodesClosed(children, visited, result)
    requires |path| > 0 && path[0] in result && AttachmentChain(children, path)
    requires forall k :: 0 <= k < |path| ==> path[k] !in visited
    ensures forall k :: 0 <= k < |path| ==> path[k] in result
  {
    if |path| > 1 {
      var front := path[..|path| - 1];
      ClosedHoldsDescendants(children, visited, result, front);
      var parent := path[|path| - 2];
      var child := path[|path| - 1];
      assert parent == front[|front| - 1];
      var j :| 0 <= j < |ChildrenOf(children, parent)| && ChildrenOf(children, parent)[j] == child;
    }
  }
}
