/** Axis-aligned boxes (`FBound`, AABoundingBoxComponent.h): a minimum and a
    maximum corner, and the octant split the octree uses. Coordinates are
    real numbers; the source's `float` rounding is not modelled. */
module Bounds {

  datatype Vec = Vec(X: real, Y: real, Z: real)

  datatype FBound = FBound(Min: Vec, Max: Vec)

  /** The box is not inverted on any axis. */
  predicate WellFormed(b: FBound)
  {
    b.Min.X <= b.Max.X && b.Min.Y <= b.Max.Y && b.Min.Z <= b.Max.Z
  }

  /** `GetCenter`: the midpoint of the two corners. */
  function Center(b: FBound): (c: Vec)
    ensures c.X - b.Min.X == b.Max.X - c.X
    ensures c.Y - b.Min.Y == b.Max.Y - c.Y
    ensures c.Z - b.Min.Z == b.Max.Z - c.Z
  {
    Vec((b.Min.X + b.Max.X) * 0.5, (b.Min.Y + b.Max.Y) * 0.5, (b.Min.Z + b.Max.Z) * 0.5)
  }

  /** `GetExtent`: half the size on each axis. */
  function Extent(b: FBound): (e: Vec)
    ensures e.X + e.X == b.Max.X - b.Min.X
    ensures e.Y + e.Y == b.Max.Y - b.Min.Y
    ensures e.Z + e.Z == b.Max.Z - b.Min.Z
  {
    Vec((b.Max.X - b.Min.X) * 0.5, (b.Max.Y - b.Min.Y) * 0.5, (b.Max.Z - b.Min.Z) * 0.5)
  }

  /** The centre sits half an extent away from both corners. */
  lemma CenterAndExtent(b: FBound)
    ensures Center(b).X == b.Min.X + Extent(b).X && Center(b).X == b.Max.X - Extent(b).X
    ensures Center(b).Y == b.Min.Y + Extent(b).Y && Center(b).Y == b.Max.Y - Extent(b).Y
    ensures Center(b).Z == b.Min.Z + Extent(b).Z && Center(b).Z == b.Max.Z - Extent(b).Z
  {
  }

  /** `Contains`: `o` lies inside `b` on every axis. */
  predicate Contains(b: FBound, o: FBound)
  {
    (b.Min.X <= o.Min.X && b.Max.X >= o.Max.X) &&
    (b.Min.Y <= o.Min.Y && b.Max.Y >= o.Max.Y) &&
    (b.Min.Z <= o.Min.Z && b.Max.Z >= o.Max.Z)
  }

  /** `Intersects`: the boxes overlap (or touch) on every axis. */
  predicate Intersects(b: FBound, o: FBound)
  {
    (b.Min.X <= o.Max.X && b.Max.X >= o.Min.X) &&
    (b.Min.Y <= o.Max.Y && b.Max.Y >= o.Min.Y) &&
    (b.Min.Z <= o.Max.Z && b.Max.Z >= o.Min.Z)
  }

  lemma ContainsReflexive(b: FBound)
    ensures Contains(b, b)
  {
  }

  lemma ContainsTransitive(a: FBound, b: FBound, c: FBound)
    requires Contains(a, b) && Contains(b, c)
    ensures Contains(a, c)
  {
  }

  lemma IntersectsSymmetric(a: FBound, b: FBound)
    ensures Intersects(a, b) <==> Intersects(b, a)
  {
  }

  /** A box that holds a well-formed box overlaps it; an inverted box can be
      "contained" without overlapping. */
  lemma ContainsImpliesIntersects(b: FBound, o: FBound)
    requires WellFormed(o) && Contains(b, o)
    ensures Intersects(b, o)
  {
  }

  /** Well-formedness is needed above: the inverted box from (1,1,1) to
      (0,0,0) is contained in the box from (0.25,0.25,0.25) to
      (0.75,0.75,0.75) but does not meet it. */
  lemma InvertedContainedButDisjoint()
    ensures var o := FBound(Vec(1.0, 1.0, 1.0), Vec(0.0, 0.0, 0.0));
            var b := FBound(Vec(0.25, 0.25, 0.25), Vec(0.75, 0.75, 0.75));
            Contains(b, o) && !Intersects(b, o)
  {
  }

  /** Bit `k` of `i` in two's complement, as `i & (1 << k)` tests it. */
  function Bit(i: int, k: nat): bool
  {
    (i / Pow2(k)) % 2 == 1
  }

  function Pow2(k: nat): (r: nat)
    ensures r >= 1
  {
    if k == 0 then 1 else 2 * Pow2(k - 1)
  }

  /** `CreateOctant(i)`: bit 0 of `i` picks the upper half in X, bit 1 in Y
      and bit 2 in Z; the lower half runs from the minimum to the centre, the
      upper half from the centre to the maximum. */
  function CreateOctant(b: FBound, i: int): (o: FBound)
    ensures Bit(i, 0) ==> o.Min.X == Center(b).X && o.Max.X == b.Max.X
    ensures !Bit(i, 0) ==> o.Min.X == b.Min.X && o.Max.X == Center(b).X
    ensures Bit(i, 1) ==> o.Min.Y == Center(b).Y && o.Max.Y == b.Max.Y
    ensures !Bit(i, 1) ==> o.Min.Y == b.Min.Y && o.Max.Y == Center(b).Y
    ensures Bit(i, 2) ==> o.Min.Z == Center(b).Z && o.Max.Z == b.Max.Z
    ensures !Bit(i, 2) ==> o.Min.Z == b.Min.Z && o.Max.Z == Center(b).Z
  {
    var c := Center(b);
    FBound(
      Vec(if Bit(i, 0) then c.X else b.Min.X,
          if Bit(i, 1) then c.Y else b.Min.Y,
          if Bit(i, 2) then c.Z else b.Min.Z),
      Vec(if Bit(i, 0) then b.Max.X else c.X,
          if Bit(i, 1) then b.Max.Y else c.Y,
          if Bit(i, 2) then b.Max.Z else c.Z))
  }

  /** Every octant of a well-formed box is well formed and lies inside it. */
  lemma OctantInsideParent(b: FBound, i: int)
    requires WellFormed(b)
    ensures WellFormed(CreateOctant(b, i)) && Contains(b, CreateOctant(b, i))
  {
  }

  /** Octant 0 starts at the parent's minimum and octant 7 ends at its
      maximum. */
  lemma OctantCorners(b: FBound)
    ensures CreateOctant(b, 0).Min == b.Min
    ensures CreateOctant(b, 7).Max == b.Max
  {
    assert !Bit(0, 0) && !Bit(0, 1) && !Bit(0, 2);
    assert Bit(7, 0) && Bit(7, 1) && Bit(7, 2);
  }
}
