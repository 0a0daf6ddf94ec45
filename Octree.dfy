/** The loose octree used for spatial partitioning (Octree.cpp). A node has
    a box, a depth, the depth limit and the per-node actor limit, the actors
    stored at the node, the node's cache of the last box each actor was
    inserted with, and either no children or eight. The node tree is
    modelled as a value: each operation returns the updated tree. An actor
    is identified by a number; `current` gives an actor's present box, which
    the source asks the actor for (`GetBounds`). */
module Octree {
  import opened Bounds
  import Text

  type ActorId = nat

  datatype FOctree = FOctree(
    Bounds: FBound,
    Depth: int,
    MaxDepth: int,
    MaxObjects: int,
    Actors: seq<ActorId>,
    LastBounds: map<ActorId, FBound>,
    Children: seq<FOctree>)

  /** Child `i` of a node: one level deeper, the same limits, and the
      node's octant `i` as its box. */
  predicate ChildFits(parent: FOctree, i: int, child: FOctree)
  {
    child.Depth == parent.Depth + 1 && child.MaxDepth == parent.MaxDepth &&
    child.MaxObjects == parent.MaxObjects && child.Bounds == CreateOctant(parent.Bounds, i)
  }

  /** Every node has no children or eight fitting ones, and only a node
      above the depth limit has children. */
  ghost predicate Valid(t: FOctree)
    decreases t
  {
    (|t.Children| == 0 || (|t.Children| == 8 && t.Depth < t.MaxDepth)) &&
    forall i :: 0 <= i < |t.Children| ==> ChildFits(t, i, t.Children[i]) && Valid(t.Children[i])
  }

  /** The levels a node may still grow below it. */
  function Height(t: FOctree): nat
  {
    if t.Depth < t.MaxDepth then t.MaxDepth - t.Depth else 0
  }

  /** The constructor: no actors, no children. */
  function NewNode(bounds: FBound, depth: int, maxDepth: int, maxObjects: int): (t: FOctree)
    ensures Valid(t) && t.Bounds == bounds && t.Depth == depth
    ensures t.MaxDepth == maxDepth && t.MaxObjects == maxObjects
    ensures t.Actors == [] && t.Children == [] && t.LastBounds == map[]
  {
    FOctree(bounds, depth, maxDepth, maxObjects, [], map[], [])
  }

  /** `GetOctantIndex`: bit 0 is set when the actor's centre is at or past
      the node's centre in X, bit 1 in Y, bit 2 in Z. */
  function OctantIndex(node: FBound, box: FBound): (r: int)
    ensures 0 <= r < 8
    ensures Bit(r, 0) <==> Center(box).X >= Center(node).X
    ensures Bit(r, 1) <==> Center(box).Y >= Center(node).Y
    ensures Bit(r, 2) <==> Center(box).Z >= Center(node).Z
  {
    var c := Center(node);
    var ac := Center(box);
    var r := (if ac.X >= c.X then 1 else 0) + (if ac.Y >= c.Y then 2 else 0) + (if ac.Z >= c.Z then 4 else 0);
    SmallBits(r);
    r
  }

  /** The three low bits of the numbers 0 to 7. */
  lemma SmallBits(r: int)
    requires 0 <= r < 8
    ensures Bit(r, 0) <==> r % 2 == 1
    ensures Bit(r, 1) <==> (r / 2) % 2 == 1
    ensures Bit(r, 2) <==> r >= 4
  {
    assert Pow2(0) == 1 && Pow2(1) == 2 && Pow2(2) == 4;
  }

  /** `CanFitInOctant`: false without children, else whether child `i`
      holds the box. */
  function CanFitInOctant(t: FOctree, box: FBound, i: int): (r: bool)
    requires 0 <= i < 8
    ensures |t.Children| == 0 ==> !r
    ensures r ==> |t.Children| > i && Contains(t.Children[i].Bounds, box)
  {
    if |t.Children| == 0 then false else |t.Children| > i && Contains(t.Children[i].Bounds, box)
  }

  /** The first octant from `i` on, other than `skip`, that holds the box. */
  function FirstOther(node: FBound, skip: int, box: FBound, i: int): (r: Text.Option<int>)
    requires 0 <= i <= 8
    ensures r.Some? ==> i <= r.value < 8 && r.value != skip && Contains(CreateOctant(node, r.value), box)
    ensures r.Some? ==> forall j :: i <= j < r.value && j != skip ==> !Contains(CreateOctant(node, j), box)
    ensures r.None? ==> forall j :: i <= j < 8 && j != skip ==> !Contains(CreateOctant(node, j), box)
    decreases 8 - i
  {
    if i == 8 then Text.None
    else if i != skip && Contains(CreateOctant(node, i), box) then Text.Some(i)
    else FirstOther(node, skip, box, i + 1)
  }

  /** The child an actor goes to: the octant its centre points at when that
      octant holds it, else the first other octant that holds it, else none
      (the actor stays at the node). */
  function Target(node: FBound, box: FBound): (r: Text.Option<int>)
    ensures r.Some? ==> 0 <= r.value < 8 && Contains(CreateOctant(node, r.value), box)
    ensures r.None? ==> forall j :: 0 <= j < 8 ==> !Contains(CreateOctant(node, j), box)
    ensures Contains(CreateOctant(node, OctantIndex(node, box)), box) ==> r == Text.Some(OctantIndex(node, box))
  {
    var opt := OctantIndex(node, box);
    if Contains(CreateOctant(node, opt), box) then Text.Some(opt)
    else FirstOther(node, opt, box, 0)
  }

  /** The octant a node with children passes an actor to. */
  function ChildTarget(t: FOctree, box: FBound): Text.Option<int>
  {
    if |t.Children| == 0 then Text.None else Target(t.Bounds, box)
  }

  /** `Split`: eight empty children, one level deeper, with the octants as
      boxes. */
  function Split(t: FOctree): (r: FOctree)
    requires Valid(t) && t.Children == [] && t.Depth < t.MaxDepth
    ensures Valid(r) && |r.Children| == 8
    ensures r == t.(Children := r.Children)
    ensures forall i :: 0 <= i < 8 ==>
      r.Children[i] == NewNode(CreateOctant(t.Bounds, i), t.Depth + 1, t.MaxDepth, t.MaxObjects)
  {
    t.(Children := seq(8, i => NewNode(CreateOctant(t.Bounds, i), t.Depth + 1, t.MaxDepth, t.MaxObjects)))
  }

  /** The box `Insert`'s redistribution uses for a stored actor: the cached
      one, else the actor's present box. */
  function BoxOf(t: FOctree, a: ActorId, current: ActorId -> FBound): FBound
  {
    if a in t.LastBounds then t.LastBounds[a] else current(a)
  }

  /** `Insert`: records the box in the node's cache; passes the actor to the
      child that holds it when there is one; otherwise stores it here and,
      when the node then holds more than `MaxObjects` actors and is above
      the depth limit, splits (once) and passes every stored actor that a
      child holds down to that child. */
  function Insert(t: FOctree, a: ActorId, box: FBound, current: ActorId -> FBound): (r: FOctree)
    requires Valid(t)
    ensures Valid(r)
    ensures r.Bounds == t.Bounds && r.Depth == t.Depth && r.MaxDepth == t.MaxDepth && r.MaxObjects == t.MaxObjects
    decreases Height(t), 2
  {
    var t1 := t.(LastBounds := t.LastBounds[a := box]);
    var target := ChildTarget(t1, box);
    if target.Some? then
      var i := target.value;
      t1.(Children := t1.Children[i := Insert(t1.Children[i], a, box, current)])
    else
      var t2 := t1.(Actors := t1.Actors + [a]);
      if |t2.Actors| > t2.MaxObjects && t2.Depth < t2.MaxDepth then
        var t3 := if |t2.Children| == 0 then Split(t2) else t2;
        var (n, kept) := Redistribute(t3, t3.Actors, current);
        n.(Actors := kept)
      else
        t2
  }

  /** One step of `Insert`'s redistribution loop: a stored actor that a
      child holds (by its cached box, or its present one) is inserted into
      that child and reported as moved. */
  function MoveOne(t: FOctree, a: ActorId, current: ActorId -> FBound): (r: (FOctree, bool))
    requires Valid(t) && |t.Children| == 8
    ensures Valid(r.0) && |r.0.Children| == 8 && r.0 == t.(Children := r.0.Children)
    ensures !r.1 ==> r.0 == t
    decreases Height(t), 0
  {
    var box := BoxOf(t, a, current);
    var target := Target(t.Bounds, box);
    if target.Some? then
      var i := target.value;
      (t.(Children := t.Children[i := Insert(t.Children[i], a, box, current)]), true)
    else
      (t, false)
  }

  /** The redistribution loop of `Insert` over the stored actors `rest`, in
      order: the moved actors leave the node; the others stay, in their
      order. */
  function Redistribute(t: FOctree, rest: seq<ActorId>, current: ActorId -> FBound): (r: (FOctree, seq<ActorId>))
    requires Valid(t) && |t.Children| == 8
    ensures Valid(r.0) && |r.0.Children| == 8 && r.0 == t.(Children := r.0.Children)
    ensures |r.1| <= |rest|
    decreases Height(t), 1, |rest|
  {
    if rest == [] then (t, [])
    else
      var (t', moved) := MoveOne(t, rest[0], current);
      var (n, kept) := Redistribute(t', rest[1..], current);
      (n, if moved then kept else [rest[0]] + kept)
  }

  /** The sequence without the first occurrence of `a` (`erase` of the
      element `find` returns). */
  function EraseFirst(s: seq<ActorId>, a: ActorId): (r: seq<ActorId>)
    requires a in s
    ensures multiset(r) == multiset(s) - multiset{a}
  {
    if s[0] == a then
      assert s == [s[0]] + s[1..];
      s[1..]
    else
      assert s == [s[0]] + s[1..];
      [s[0]] + EraseFirst(s[1..], a)
  }

  /** `Remove(actor, box)`: when the node stores the actor, erases one
      occurrence and the node's cache entry and answers true; otherwise asks
      the child the box leads to, or answers false and changes nothing. */
  function Remove(t: FOctree, a: ActorId, box: FBound): (r: (FOctree, bool))
    requires Valid(t)
    ensures Valid(r.0)
    ensures r.0.Bounds == t.Bounds && r.0.Depth == t.Depth && r.0.MaxDepth == t.MaxDepth && r.0.MaxObjects == t.MaxObjects
    ensures !r.1 ==> r.0 == t
    decreases t
  {
    if a in t.Actors then
      (t.(Actors := EraseFirst(t.Actors, a), LastBounds := t.LastBounds - {a}), true)
    else
      var target := ChildTarget(t, box);
      if target.Some? then
        var i := target.value;
        var (child, removed) := Remove(t.Children[i], a, box);
        if removed then (t.(Children := t.Children[i := child]), true)
        else (t, false)
      else
        (t, false)
  }

  /** `Remove(actor)`: removes with the box cached at this node; without a
      cache entry nothing happens. */
  function RemoveCached(t: FOctree, a: ActorId): (r: FOctree)
    requires Valid(t)
    ensures Valid(r)
    ensures a !in t.LastBounds ==> r == t
  {
    if a in t.LastBounds then Remove(t, a, t.LastBounds[a]).0 else t
  }

  /** `Update(actor, old, new)`: remove with the old box, insert with the
      new one. */
  function Update(t: FOctree, a: ActorId, oldBox: FBound, newBox: FBound, current: ActorId -> FBound): (r: FOctree)
    requires Valid(t)
    ensures Valid(r)
  {
    Insert(Remove(t, a, oldBox).0, a, newBox, current)
  }

  /** `Update(actor)`: an update from the cached box to the present one, or
      a plain insert when the node has no cache entry. */
  function UpdateCached(t: FOctree, a: ActorId, current: ActorId -> FBound): (r: FOctree)
    requires Valid(t)
    ensures Valid(r)
  {
    if a in t.LastBounds then Update(t, a, t.LastBounds[a], current(a), current)
    else Insert(t, a, current(a), current)
  }

  /** `Clear`: drops the stored actors and all children; the node's box
      cache is kept. */
  function Clear(t: FOctree): (r: FOctree)
    ensures Valid(r) && TotalActorCount(r) == 0 && TotalNodeCount(r) == 1
    ensures r.LastBounds == t.LastBounds && r.Bounds == t.Bounds && r.Depth == t.Depth
  {
    t.(Actors := [], Children := [])
  }

  /** `TotalNodeCount`. */
  function TotalNodeCount(t: FOctree): (n: int)
    ensures n >= 1
    decreases t
  {
    1 + ChildrenNodeCount(t.Children)
  }

  function ChildrenNodeCount(cs: seq<FOctree>): (n: int)
    ensures n >= |cs|
    decreases cs
  {
    if cs == [] then 0 else TotalNodeCount(cs[0]) + ChildrenNodeCount(cs[1..])
  }

  /** `TotalActorCount`. */
  function TotalActorCount(t: FOctree): (n: int)
    ensures n >= |t.Actors|
    decreases t
  {
    |t.Actors| + ChildrenActorCount(t.Children)
  }

  function ChildrenActorCount(cs: seq<FOctree>): (n: int)
    ensures n >= 0
    decreases cs
  {
    if cs == [] then 0 else TotalActorCount(cs[0]) + ChildrenActorCount(cs[1..])
  }

  /** `MaxOccupiedDepth`: the deepest node depth in the tree. */
  function MaxOccupiedDepth(t: FOctree): (d: int)
    ensures d >= t.Depth
    decreases t
  {
    var c := ChildrenMaxDepth(t.Children, t.Depth);
    if c > t.Depth then c else t.Depth
  }

  function ChildrenMaxDepth(cs: seq<FOctree>, floor: int): (d: int)
    ensures d >= floor
    decreases cs
  {
    if cs == [] then floor
    else
      var first := MaxOccupiedDepth(cs[0]);
      ChildrenMaxDepth(cs[1..], if first > floor then first else floor)
  }

  /** The actors stored anywhere in the tree, with their multiplicity. */
  ghost function AllActors(t: FOctree): multiset<ActorId>
    decreases t
  {
    multiset(t.Actors) + ChildrenActors(t.Children)
  }

  ghost function ChildrenActors(cs: seq<FOctree>): multiset<ActorId>
    decreases cs
  {
    if cs == [] then multiset{} else AllActors(cs[0]) + ChildrenActors(cs[1..])
  }

  /** `TotalActorCount` counts every stored actor once per occurrence. */
  lemma {:induction false} TotalActorCountIsSize(t: FOctree)
    ensures TotalActorCount(t) == |AllActors(t)|
    decreases t, 1
  {
    ChildrenActorCountIsSize(t.Children);
  }

  lemma {:induction false} ChildrenActorCountIsSize(cs: seq<FOctree>)
    ensures ChildrenActorCount(cs) == |ChildrenActors(cs)|
    decreases cs, 0
  {
    if cs != [] {
      TotalActorCountIsSize(cs[0]);
      ChildrenActorCountIsSize(cs[1..]);
    }
  }

  /** Replacing child `i` by `c` changes the children's total by what `c`
      adds to the old child. */
  lemma {:induction false} ChildrenActorsGrow(cs: seq<FOctree>, i: int, c: FOctree, extra: multiset<ActorId>)
    requires 0 <= i < |cs| && AllActors(c) == AllActors(cs[i]) + extra
    ensures ChildrenActors(cs[i := c]) == ChildrenActors(cs) + extra
    decreases cs
  {
    var cs' := cs[i := c];
    assert cs'[0] == (if i == 0 then c else cs[0]);
    if i > 0 {
      assert cs'[1..] == cs[1..][i - 1 := c];
      ChildrenActorsGrow(cs[1..], i - 1, c, extra);
    } else {
      assert cs'[1..] == cs[1..];
    }
  }

  /** Replacing child `i` by `c`, which holds one occurrence of `a` less,
      takes that occurrence out of the children's total. */
  lemma {:induction false} ChildrenActorsShrink(cs: seq<FOctree>, i: int, c: FOctree, a: ActorId)
    requires 0 <= i < |cs| && AllActors(c) + multiset{a} == AllActors(cs[i])
    ensures ChildrenActors(cs[i := c]) + multiset{a} == ChildrenActors(cs)
    decreases cs
  {
    var cs' := cs[i := c];
    assert cs'[0] == (if i == 0 then c else cs[0]);
    if i > 0 {
      assert cs'[1..] == cs[1..][i - 1 := c];
      ChildrenActorsShrink(cs[1..], i - 1, c, a);
    } else {
      assert cs'[1..] == cs[1..];
    }
  }

  /** Empty children hold no actors. */
  lemma {:induction false} EmptyChildrenActors(cs: seq<FOctree>)
    requires forall i :: 0 <= i < |cs| ==> cs[i].Actors == [] && cs[i].Children == []
    ensures ChildrenActors(cs) == multiset{}
  {
    if cs != [] {
      EmptyChildrenActors(cs[1..]);
    }
  }

  /** `Insert` stores exactly one more occurrence of the actor: the
      redistribution only moves actors. */
  lemma {:induction false} InsertAddsOne(t: FOctree, a: ActorId, box: FBound, current: ActorId -> FBound)
    requires Valid(t)
    ensures AllActors(Insert(t, a, box, current)) == AllActors(t) + multiset{a}
    decreases Height(t), 2
  {
    var t1 := t.(LastBounds := t.LastBounds[a := box]);
    var target := ChildTarget(t1, box);
    if target.Some? {
      var i := target.value;
      var c := Insert(t.Children[i], a, box, current);
      assert Insert(t, a, box, current) == t1.(Children := t.Children[i := c]);
      InsertAddsOne(t.Children[i], a, box, current);
      ChildGrows(t, t1, i, c, multiset{a});
    } else {
      var t2 := t1.(Actors := t.Actors + [a]);
      if |t2.Actors| > t2.MaxObjects && t2.Depth < t2.MaxDepth {
        var t3 := if |t2.Children| == 0 then Split(t2) else t2;
        var r := Redistribute(t3, t3.Actors, current);
        assert Insert(t, a, box, current) == r.0.(Actors := r.1);
        if |t2.Children| == 0 {
          EmptyChildrenActors(t3.Children);
        }
        RedistributeMoves(t3, t3.Actors, current);
        NodeGrows(t, r.0.(Actors := r.1), t3.Actors, t3.Children, a);
      } else {
        assert Insert(t, a, box, current) == t2;
        NodeGrows(t, t2, t2.Actors, t2.Children, a);
      }
    }
  }

  /** A node whose child `i` gained `extra` gained `extra`. */
  lemma ChildGrows(t: FOctree, t1: FOctree, i: int, c: FOctree, extra: multiset<ActorId>)
    requires 0 <= i < |t.Children| && t1.Actors == t.Actors && t1.Children == t.Children
    requires AllActors(c) == AllActors(t.Children[i]) + extra
    ensures AllActors(t1.(Children := t.Children[i := c])) == AllActors(t) + extra
  {
    ChildrenActorsGrow(t.Children, i, c, extra);
  }

  /** A node whose actors and children together hold those of `t` and the
      actor `a` once more. */
  lemma NodeGrows(t: FOctree, r: FOctree, stored: seq<ActorId>, kids: seq<FOctree>, a: ActorId)
    requires stored == t.Actors + [a] && ChildrenActors(kids) == ChildrenActors(t.Children)
    requires ChildrenActors(r.Children) + multiset(r.Actors) == ChildrenActors(kids) + multiset(stored)
    ensures AllActors(r) == AllActors(t) + multiset{a}
  {
    assert multiset(stored) == multiset(t.Actors) + multiset{a};
    assert AllActors(r) == multiset(r.Actors) + ChildrenActors(r.Children);
    calc {
      AllActors(r);
      multiset(r.Actors) + ChildrenActors(r.Children);
      ChildrenActors(t.Children) + (multiset(t.Actors) + multiset{a});
      (multiset(t.Actors) + ChildrenActors(t.Children)) + multiset{a};
      AllActors(t) + multiset{a};
    }
  }

  /** One redistribution step adds the actor to the children exactly when
      it reports the actor as moved. */
  lemma {:induction false} MoveOneMoves(t: FOctree, a: ActorId, current: ActorId -> FBound)
    requires Valid(t) && |t.Children| == 8
    ensures var r := MoveOne(t, a, current);
      ChildrenActors(r.0.Children) == ChildrenActors(t.Children) + (if r.1 then multiset{a} else multiset{})
    decreases Height(t), 0
  {
    var box := BoxOf(t, a, current);
    var target := Target(t.Bounds, box);
    if target.Some? {
      var i := target.value;
      var c := Insert(t.Children[i], a, box, current);
      InsertAddsOne(t.Children[i], a, box, current);
      ChildrenActorsGrow(t.Children, i, c, multiset{a});
    }
  }

  /** The redistribution moves the actors of `rest` between the node and
      its children without losing or adding any. */
  lemma {:induction false} RedistributeMoves(t: FOctree, rest: seq<ActorId>, current: ActorId -> FBound)
    requires Valid(t) && |t.Children| == 8
    ensures var r := Redistribute(t, rest, current);
      ChildrenActors(r.0.Children) + multiset(r.1) == ChildrenActors(t.Children) + multiset(rest)
    decreases Height(t), 1, |rest|
  {
    if rest != [] {
      var (t', moved) := MoveOne(t, rest[0], current);
      var r := Redistribute(t', rest[1..], current);
      MoveOneMoves(t, rest[0], current);
      RedistributeMoves(t', rest[1..], current);
      if moved {
        MovedDown(ChildrenActors(t.Children), ChildrenActors(t'.Children), r.0.Children, r.1, rest);
      } else {
        KeptHere(ChildrenActors(t.Children), r.0.Children, r.1, rest);
      }
    }
  }

  /** Bookkeeping of one actor the redistribution moves to a child. */
  lemma MovedDown(before: multiset<ActorId>, after: multiset<ActorId>, kids: seq<FOctree>, kept: seq<ActorId>, rest: seq<ActorId>)
    requires rest != [] && after == before + multiset{rest[0]}
    requires ChildrenActors(kids) + multiset(kept) == after + multiset(rest[1..])
    ensures ChildrenActors(kids) + multiset(kept) == before + multiset(rest)
  {
    assert rest == [rest[0]] + rest[1..];
    assert multiset(rest) == multiset{rest[0]} + multiset(rest[1..]);
    calc {
      ChildrenActors(kids) + multiset(kept);
      (before + multiset{rest[0]}) + multiset(rest[1..]);
      before + (multiset{rest[0]} + multiset(rest[1..]));
    }
  }

  /** Bookkeeping of one actor the redistribution keeps at the node. */
  lemma KeptHere(before: multiset<ActorId>, kids: seq<FOctree>, kept: seq<ActorId>, rest: seq<ActorId>)
    requires rest != []
    requires ChildrenActors(kids) + multiset(kept) == before + multiset(rest[1..])
    ensures ChildrenActors(kids) + multiset([rest[0]] + kept) == before + multiset(rest)
  {
    assert rest == [rest[0]] + rest[1..];
    assert multiset(rest) == multiset{rest[0]} + multiset(rest[1..]);
    assert multiset([rest[0]] + kept) == multiset{rest[0]} + multiset(kept);
    calc {
      ChildrenActors(kids) + multiset([rest[0]] + kept);
      ChildrenActors(kids) + (multiset{rest[0]} + multiset(kept));
      (ChildrenActors(kids) + multiset(kept)) + multiset{rest[0]};
      (before + multiset(rest[1..])) + multiset{rest[0]};
      before + (multiset{rest[0]} + multiset(rest[1..]));
    }
  }

  /** A removal that reports success took one occurrence of the actor out
      of the tree; one that reports failure changed nothing. */
  lemma {:induction false} RemoveTakesOne(t: FOctree, a: ActorId, box: FBound)
    requires Valid(t)
    ensures Remove(t, a, box).1 ==>
      a in AllActors(t) && AllActors(Remove(t, a, box).0) + multiset{a} == AllActors(t)
    decreases t
  {
    if a in t.Actors {
      ErasedHere(t, a);
    } else {
      var target := ChildTarget(t, box);
      if target.Some? {
        var i := target.value;
        var (child, removed) := Remove(t.Children[i], a, box);
        if removed {
          assert Remove(t, a, box).0 == t.(Children := t.Children[i := child]);
          RemoveTakesOne(t.Children[i], a, box);
          ChildShrinks(t, i, child, a);
        }
      }
    }
  }

  /** Erasing a stored actor at the node takes one occurrence out. */
  lemma ErasedHere(t: FOctree, a: ActorId)
    requires a in t.Actors
    ensures var r := t.(Actors := EraseFirst(t.Actors, a), LastBounds := t.LastBounds - {a});
      a in AllActors(t) && AllActors(r) + multiset{a} == AllActors(t)
  {
    var r := t.(Actors := EraseFirst(t.Actors, a), LastBounds := t.LastBounds - {a});
    assert multiset(r.Actors) + multiset{a} == multiset(t.Actors);
    calc {
      AllActors(r) + multiset{a};
      (multiset(r.Actors) + ChildrenActors(t.Children)) + multiset{a};
      (multiset(r.Actors) + multiset{a}) + ChildrenActors(t.Children);
      AllActors(t);
    }
  }

  /** A node whose child `i` lost one occurrence of `a` lost it. */
  lemma ChildShrinks(t: FOctree, i: int, c: FOctree, a: ActorId)
    requires 0 <= i < |t.Children| && AllActors(c) + multiset{a} == AllActors(t.Children[i])
    ensures a in AllActors(t) && AllActors(t.(Children := t.Children[i := c])) + multiset{a} == AllActors(t)
  {
    var r := t.(Children := t.Children[i := c]);
    ChildrenActorsShrink(t.Children, i, c, a);
    calc {
      AllActors(r) + multiset{a};
      (multiset(t.Actors) + ChildrenActors(r.Children)) + multiset{a};
      multiset(t.Actors) + (ChildrenActors(r.Children) + multiset{a});
      AllActors(t);
    }
  }

  /** `TotalActorCount` goes up by one with each `Insert`. */
  lemma InsertCountsOne(t: FOctree, a: ActorId, box: FBound, current: ActorId -> FBound)
    requires Valid(t)
    ensures TotalActorCount(Insert(t, a, box, current)) == TotalActorCount(t) + 1
  {
    InsertAddsOne(t, a, box, current);
    TotalActorCountIsSize(t);
    TotalActorCountIsSize(Insert(t, a, box, current));
  }

  /** `TotalActorCount` goes down by one with each removal that reports
      success, and a removal can only succeed on a non-empty tree. */
  lemma RemoveCountsOne(t: FOctree, a: ActorId, box: FBound)
    requires Valid(t) && Remove(t, a, box).1
    ensures TotalActorCount(Remove(t, a, box).0) == TotalActorCount(t) - 1
    ensures TotalActorCount(t) >= 1
  {
    RemoveTakesOne(t, a, box);
    TotalActorCountIsSize(t);
    TotalActorCountIsSize(Remove(t, a, box).0);
  }

  /** Updating an actor that the old box finds moves it: the tree stores the
      same actors afterwards. */
  lemma UpdateKeepsActors(t: FOctree, a: ActorId, oldBox: FBound, newBox: FBound, current: ActorId -> FBound)
    requires Valid(t) && Remove(t, a, oldBox).1
    ensures AllActors(Update(t, a, oldBox, newBox, current)) == AllActors(t)
  {
    RemoveTakesOne(t, a, oldBox);
    InsertAddsOne(Remove(t, a, oldBox).0, a, newBox, current);
  }

  /** No node of a valid tree whose root is within the depth limit lies
      deeper than the limit: splits happen only above it. */
  lemma {:induction false} DepthBound(t: FOctree)
    requires Valid(t) && t.Depth <= t.MaxDepth
    ensures MaxOccupiedDepth(t) <= t.MaxDepth
    decreases t, 1
  {
    ChildrenDepthBound(t, t.Children, t.Depth);
  }

  lemma {:induction false} ChildrenDepthBound(parent: FOctree, cs: seq<FOctree>, floor: int)
    requires floor <= parent.MaxDepth
    requires cs != [] ==> parent.Depth < parent.MaxDepth
    requires forall i :: 0 <= i < |cs| ==> Valid(cs[i]) && cs[i].Depth == parent.Depth + 1 && cs[i].MaxDepth == parent.MaxDepth
    ensures ChildrenMaxDepth(cs, floor) <= parent.MaxDepth
    decreases cs, 0
  {
    if cs != [] {
      DepthBound(cs[0]);
      ChildrenDepthBound(parent, cs[1..], if MaxOccupiedDepth(cs[0]) > floor then MaxOccupiedDepth(cs[0]) else floor);
    }
  }
}
