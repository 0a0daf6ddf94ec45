/** The cloth component's mesh generation and fabric set-up
    (Mundi/Source/Runtime/Engine/Components/ClothComponent.cpp): a plane
    of `GridSizeX` by `GridSizeY` quads with its vertices, inverse masses
    and triangle indices, and the distance constraints `InitializeCloth`
    derives from the vertex count.

    Coordinates and masses are reals. The cloth library (factory, fabric,
    solver) is outside the model: `InitializeCloth` is modelled up to the
    constraint list it hands to the factory. */
module ClothComponent {
  import opened Text

  datatype FVector = FVector(X: real, Y: real, Z: real)

  /** A distance constraint between two vertices. */
  datatype Link = Link(From: nat, To: nat)

  lemma MulMono(a: nat, b: nat, w: nat)
    requires a <= b
    ensures a * w <= b * w
  {
  }

  /** The vertex in column `x` and row `y`: the plane hangs in the YZ
      plane, columns along Y and rows downwards. */
  function Vertex(x: nat, y: nat, quadSize: real): FVector
  {
    FVector(0.0, x as real * quadSize, -(y as real) * quadSize)
  }

  function RowVertices(w: nat, y: nat, quadSize: real): (r: seq<FVector>)
    ensures |r| == w && forall x :: 0 <= x < w ==> r[x] == Vertex(x, y, quadSize)
  {
    seq(w, x requires 0 <= x => Vertex(x, y, quadSize))
  }

  /** The vertices of the first `h` rows of `w` vertices, row by row. */
  function PlaneVertices(w: nat, h: nat, quadSize: real): seq<FVector>
  {
    if h == 0 then [] else PlaneVertices(w, h - 1, quadSize) + RowVertices(w, h - 1, quadSize)
  }

  lemma {:induction false} PlaneVerticesLength(w: nat, h: nat, quadSize: real)
    ensures |PlaneVertices(w, h, quadSize)| == w * h
  {
    if h > 0 {
      PlaneVerticesLength(w, h - 1, quadSize);
      assert w * h == w * (h - 1) + w;
    }
  }

  /** Vertex `y * w + x` of the plane is the one in column `x` and row
      `y`. */
  lemma {:induction false} PlaneVertexAt(w: nat, h: nat, quadSize: real, y: nat, x: nat)
    requires y < h && x < w
    ensures y * w + x < |PlaneVertices(w, h, quadSize)|
    ensures PlaneVertices(w, h, quadSize)[y * w + x] == Vertex(x, y, quadSize)
  {
    PlaneVerticesLength(w, h - 1, quadSize);
    assert w * h == w * (h - 1) + w;
    if y < h - 1 {
      PlaneVertexAt(w, h - 1, quadSize, y, x);
    } else {
      assert y * w == w * (h - 1);
    }
  }

  /** There are `w * h` vertices and vertex `y * w + x` is the one in
      column `x` and row `y`. */
  lemma PlaneVerticesAt(w: nat, h: nat, quadSize: real)
    ensures |PlaneVertices(w, h, quadSize)| == w * h
    ensures forall y, x :: 0 <= y < h && 0 <= x < w ==> y * w + x < w * h && PlaneVertices(w, h, quadSize)[y * w + x] == Vertex(x, y, quadSize)
  {
    PlaneVerticesLength(w, h, quadSize);
    forall y, x | 0 <= y < h && 0 <= x < w
      ensures y * w + x < w * h && PlaneVertices(w, h, quadSize)[y * w + x] == Vertex(x, y, quadSize)
    {
      PlaneVertexAt(w, h, quadSize, y, x);
    }
  }

  function RowMasses(w: nat, y: nat): (r: seq<real>)
    ensures |r| == w && forall x :: 0 <= x < w ==> r[x] == if y == 0 then 0.0 else 1.0
  {
    seq(w, x requires 0 <= x => if y == 0 then 0.0 else 1.0)
  }

  /** The inverse masses of the first `h` rows. */
  function PlaneMasses(w: nat, h: nat): seq<real>
  {
    if h == 0 then [] else PlaneMasses(w, h - 1) + RowMasses(w, h - 1)
  }

  /** One inverse mass per vertex: 0 (pinned) for the `w` vertices of the
      top row, 1 for every other vertex. */
  lemma {:induction false} TopRowPinned(w: nat, h: nat)
    ensures |PlaneMasses(w, h)| == w * h
    ensures forall k :: 0 <= k < w * h ==> PlaneMasses(w, h)[k] == if k < w then 0.0 else 1.0
  {
    if h > 0 {
      TopRowPinned(w, h - 1);
      assert w * h == w * (h - 1) + w;
      if h > 1 {
        MulMono(1, h - 1, w);
      }
    }
  }

  /** The two triangles of the quad at column `x`, row `y` of a plane `w`
      vertices wide: (i0, i2, i1) and (i1, i2, i3) with i0 its top-left
      corner, i1 top-right, i2 bottom-left and i3 bottom-right. */
  function QuadIndices(w: nat, x: nat, y: nat): seq<nat>
  {
    var i0 := y * w + x;
    [i0, i0 + w, i0 + 1, i0 + 1, i0 + w, i0 + w + 1]
  }

  /** The triangles of the first `n` quads of row `y`. */
  function RowIndices(w: nat, n: nat, y: nat): seq<nat>
  {
    if n == 0 then [] else RowIndices(w, n - 1, y) + QuadIndices(w, n - 1, y)
  }

  /** The triangles of the first `rows` rows of `quads` quads each. */
  function PlaneIndices(quads: nat, rows: nat): seq<nat>
  {
    if rows == 0 then [] else PlaneIndices(quads, rows - 1) + RowIndices(quads + 1, quads, rows - 1)
  }

  /** Each quad of row `y` gives six indices, all in rows `y` and `y + 1`. */
  lemma {:induction false} RowIndicesBounded(w: nat, n: nat, y: nat)
    requires n < w
    ensures |RowIndices(w, n, y)| == 6 * n
    ensures forall k :: 0 <= k < |RowIndices(w, n, y)| ==> y * w <= RowIndices(w, n, y)[k] < (y + 2) * w
  {
    if n > 0 {
      RowIndicesBounded(w, n - 1, y);
      assert (y + 2) * w == y * w + w + w;
    }
  }

  /** A plane of `quads` by `rows` quads has `6 * quads * rows` triangle
      indices, each naming one of its `(quads + 1) * (rows + 1)`
      vertices. */
  lemma {:induction false} PlaneIndicesBounded(quads: nat, rows: nat)
    ensures |PlaneIndices(quads, rows)| == 6 * quads * rows
    ensures forall k :: 0 <= k < |PlaneIndices(quads, rows)| ==> PlaneIndices(quads, rows)[k] < (quads + 1) * (rows + 1)
  {
    if rows > 0 {
      PlaneIndicesBounded(quads, rows - 1);
      RowIndicesBounded(quads + 1, quads, rows - 1);
      assert 6 * quads * rows == 6 * quads * (rows - 1) + 6 * quads;
      assert (quads + 1) * (rows + 1) == (quads + 1) * rows + (quads + 1);
      assert (rows - 1 + 2) * (quads + 1) == (quads + 1) * (rows + 1);
      MulMono(rows, rows + 1, quads + 1);
    }
  }

  /** The integer square root: the `int` cast of `sqrt` for the vertex
      counts a cloth has. */
  function ISqrtBelow(n: nat, r: nat): (s: nat)
    requires n < (r + 1) * (r + 1)
    ensures s * s <= n < (s + 1) * (s + 1)
    decreases r
  {
    if r * r <= n then r else ISqrtBelow(n, r - 1)
  }

  function ISqrt(n: nat): (s: nat)
    ensures s * s <= n < (s + 1) * (s + 1)
  {
    assert (n + 1) * (n + 1) == n * n + 2 * n + 1;
    ISqrtBelow(n, n)
  }

  lemma SquareMono(a: nat, b: nat)
    requires a <= b
    ensures a * a <= b * b
  {
    MulMono(a, b, a);
    MulMono(a, b, b);
  }

  /** Two numbers between the same consecutive squares are equal. */
  lemma ISqrtUnique(n: nat, r: nat, s: nat)
    requires r * r <= n < (r + 1) * (r + 1) && s * s <= n < (s + 1) * (s + 1)
    ensures r == s
  {
    if r < s {
      SquareMono(r + 1, s);
    } else if s < r {
      SquareMono(s + 1, r);
    }
  }

  /** The constraints of vertices `0 .. m - 1` as `InitializeCloth` makes
      them for `n` vertices taken as a square `g` wide: vertex `i` is
      linked to `i + 1` unless its column `i % g` is the last, and to
      `i + g` unless its row `i / g` is the last of the square. */
  function SquareLinks(g: nat, m: nat): seq<Link>
    requires g > 0
  {
    if m == 0 then []
    else
      var i := m - 1;
      SquareLinks(g, i) +
      (if i % g < g - 1 then [Link(i, i + 1)] else []) +
      (if i / g < g - 1 then [Link(i, i + g)] else [])
  }

  /** The links `InitializeCloth` makes for `n` vertices: as if the cloth
      were a square of `ISqrt(n)` vertices a side. */
  function WrittenLinks(n: nat): seq<Link>
    requires n > 0
  {
    assert ISqrt(n) > 0;
    SquareLinks(ISqrt(n), n)
  }

  /** A link of `i` is in the list once `i` is. */
  lemma {:induction false} SquareLinksHasRight(g: nat, m: nat, i: nat)
    requires g > 0 && i < m && i % g < g - 1
    ensures Link(i, i + 1) in SquareLinks(g, m)
  {
    if i < m - 1 {
      SquareLinksHasRight(g, m - 1, i);
    }
  }

  /** The curtain's 15 by 20 quads give 16 * 21 = 336 vertices, read as a
      square 18 wide: vertex 335 is then linked to vertex 336, which does
      not exist, and vertex 15, the end of the first row, to vertex 16, the
      start of the second, which `PlaneLinksJoinNeighbours` rules out. */
  lemma CurtainLinksLeaveThePlane()
    ensures |PlaneVertices(16, 21, 10.0)| == 336
    ensures ISqrt(336) == 18
    ensures Link(335, 336) in WrittenLinks(336)
    ensures Link(15, 16) in WrittenLinks(336) && 15 % 16 == 16 - 1
  {
    PlaneVerticesAt(16, 21, 10.0);
    ISqrtUnique(336, ISqrt(336), 18);
    SquareLinksHasRight(18, 336, 335);
    SquareLinksHasRight(18, 336, 15);
  }

  /** The constraints of vertices `0 .. m - 1` of a plane of `n` vertices
      in rows `w` wide: vertex `i` is linked to `i + 1` unless it ends its
      row, and to `i + w` when that vertex exists. */
  function PlaneLinks(w: nat, n: nat, m: nat): seq<Link>
    requires w > 0
  {
    if m == 0 then []
    else
      var i := m - 1;
      PlaneLinks(w, n, i) +
      (if i % w < w - 1 && i + 1 < n then [Link(i, i + 1)] else []) +
      (if i + w < n then [Link(i, i + w)] else [])
  }

  /** Every link of `PlaneLinks` joins two vertices of the plane that are
      neighbours in it: the next one in the same row (the first is not at
      the end of its row), or the one below. */
  lemma {:induction false} PlaneLinksJoinNeighbours(w: nat, n: nat, m: nat)
    requires w > 0
    ensures forall k :: 0 <= k < |PlaneLinks(w, n, m)| ==>
              var l := PlaneLinks(w, n, m)[k];
              l.From < m && l.To < n &&
              ((l.To == l.From + 1 && l.From % w < w - 1) || l.To == l.From + w)
  {
    if m > 0 {
      PlaneLinksJoinNeighbours(w, n, m - 1);
    }
  }

  class UClothComponent {
    var ClothVertices: seq<FVector>
    var InverseMasses: seq<real>
    var ClothIndices: seq<nat>
    /** The constraints of the fabric the factory was given; none once
        released or before it is made. */
    var Fabric: Option<seq<Link>>

    constructor ()
      ensures ClothVertices == [] && InverseMasses == [] && ClothIndices == [] && Fabric == None
    {
      ClothVertices := [];
      InverseMasses := [];
      ClothIndices := [];
      Fabric := None;
    }

    /** `CreateClothFromPlane`: the previous mesh is dropped; then the
        plane's `(gridSizeX + 1) * (gridSizeY + 1)` vertices row by row
        (`PlaneVerticesAt`), their inverse masses (`TopRowPinned`) and the
        triangles of its quads (`PlaneIndicesBounded`). A negative size
        gives no vertices, a size of 0 no triangles. */
    method CreateClothFromPlane(gridSizeX: int, gridSizeY: int, quadSize: real)
      modifies this
      ensures Fabric == old(Fabric)
      ensures ClothVertices == if gridSizeX >= 0 && gridSizeY >= 0 then PlaneVertices(gridSizeX + 1, gridSizeY + 1, quadSize) else []
      ensures InverseMasses == if gridSizeX >= 0 && gridSizeY >= 0 then PlaneMasses(gridSizeX + 1, gridSizeY + 1) else []
      ensures ClothIndices == if gridSizeX >= 0 && gridSizeY >= 0 then PlaneIndices(gridSizeX, gridSizeY) else []
    {
      if gridSizeX >= 0 && gridSizeY >= 0 {
        var vertices, masses := BuildPlane(gridSizeX + 1, gridSizeY + 1, quadSize);
        var indices := BuildIndices(gridSizeX, gridSizeY);
        ClothVertices, InverseMasses, ClothIndices := vertices, masses, indices;
      } else {
        ClothVertices, InverseMasses, ClothIndices := [], [], [];
      }
    }

    /** `ReleaseCloth`: the fabric is dropped; the mesh stays. */
    method ReleaseCloth()
      modifies this
      ensures Fabric == None
      ensures ClothVertices == old(ClothVertices) && InverseMasses == old(InverseMasses) && ClothIndices == old(ClothIndices)
    {
      Fabric := None;
    }

    /** `InitializeCloth`, given whether the cloth system has a factory:
        without a mesh nothing changes; otherwise the old fabric is
        released and, with a factory, a new one is made from
        `WrittenLinks` of the vertex count. */
    method InitializeCloth(hasFactory: bool)
      modifies this
      ensures ClothVertices == old(ClothVertices) && InverseMasses == old(InverseMasses) && ClothIndices == old(ClothIndices)
      ensures ClothVertices == [] || ClothIndices == [] ==> Fabric == old(Fabric)
      ensures ClothVertices != [] && ClothIndices != [] ==>
                Fabric == if hasFactory then Some(WrittenLinks(|ClothVertices|)) else None
    {
      if ClothVertices == [] || ClothIndices == [] {
        return;
      }
      ReleaseCloth();
      if !hasFactory {
        return;
      }
      var links := DistanceLinks(|ClothVertices|);
      Fabric := Some(links);
    }
  }

  /** The vertex loops of `CreateClothFromPlane`: `h` rows of `w`
      vertices, the top row pinned. */
  method BuildPlane(w: nat, h: nat, quadSize: real) returns (vertices: seq<FVector>, masses: seq<real>)
    ensures vertices == PlaneVertices(w, h, quadSize)
    ensures masses == PlaneMasses(w, h)
  {
    vertices, masses := [], [];
    var y := 0;
    while y < h
      invariant 0 <= y <= h
      invariant vertices == PlaneVertices(w, y, quadSize) && masses == PlaneMasses(w, y)
    {
      var x := 0;
      var row: seq<FVector> := [];
      var rowMasses: seq<real> := [];
      while x < w
        invariant 0 <= x <= w
        invariant row == RowVertices(w, y, quadSize)[..x] && rowMasses == RowMasses(w, y)[..x]
      {
        row := row + [Vertex(x, y, quadSize)];
        rowMasses := rowMasses + [if y == 0 then 0.0 else 1.0];
        x := x + 1;
      }
      assert row == RowVertices(w, y, quadSize) && rowMasses == RowMasses(w, y);
      vertices := vertices + row;
      masses := masses + rowMasses;
      y := y + 1;
    }
  }

  /** The index loops of `CreateClothFromPlane`: two triangles for each
      of the `quads * rows` quads. */
  method BuildIndices(quads: nat, rows: nat) returns (indices: seq<nat>)
    ensures indices == PlaneIndices(quads, rows)
  {
    indices := [];
    var y := 0;
    while y < rows
      invariant 0 <= y <= rows
      invariant indices == PlaneIndices(quads, y)
    {
      var x := 0;
      var row: seq<nat> := [];
      while x < quads
        invariant 0 <= x <= quads
        invariant row == RowIndices(quads + 1, x, y)
      {
        var i0 := y * (quads + 1) + x;
        var i1 := i0 + 1;
        var i2 := i0 + (quads + 1);
        var i3 := i2 + 1;
        assert [i0, i2, i1] + [i1, i2, i3] == QuadIndices(quads + 1, x, y);
        row := row + [i0, i2, i1] + [i1, i2, i3];
        x := x + 1;
      }
      indices := indices + row;
      y := y + 1;
    }
  }

  /** The constraint loop of `InitializeCloth` over `n` vertices. */
  method DistanceLinks(n: nat) returns (links: seq<Link>)
    requires n > 0
    ensures links == WrittenLinks(n)
  {
    var g := ISqrt(n);
    links := [];
    var i := 0;
    while i < n
      invariant 0 <= i <= n
      invariant links == SquareLinks(g, i)
    {
      var x := i % g;
      var y := i / g;
      if x < g - 1 {
        links := links + [Link(i, i + 1)];
      }
      if y < g - 1 {
        links := links + [Link(i, i + g)];
      }
      i := i + 1;
    }
  }
}
