/** Engine enumerations and cooked-mesh records (Enums.h): the show-flag bit
    set and its operators, the view modes, and the order in which the
    archive operators write and read `FObjMaterialInfo`, `FGroupInfo`,
    `FNormalVertex` and `FStaticMesh`. The archive is modelled as a
    sequence of tokens, one per value it stores; how `FArchive` lays those
    values out in bytes is not part of this model. */
module Enums {
  import opened Text
  import opened Bounds

  // ---------------------------------------------------------------------
  // Show flags

  /** A bit position of the 64-bit flag word. */
  type BitIndex = k: nat | k < 64

  /** A 64-bit `EEngineShowFlags` word, as the set of its 1-bits: `|` is
      union, `&` intersection and `~` complement within the 64 bits. */
  type EEngineShowFlags = set<BitIndex>

  /** `1ull << k`. */
  function Bit(k: BitIndex): EEngineShowFlags
  {
    {k}
  }

  /** `EEngineShowFlags::None`. */
  const NoShowFlags: EEngineShowFlags := {}
  const SF_Primitives: EEngineShowFlags := Bit(0)
  const SF_StaticMeshes: EEngineShowFlags := Bit(1)
  const SF_Wireframe: EEngineShowFlags := Bit(2)
  const SF_BillboardText: EEngineShowFlags := Bit(3)
  const SF_BoundingBoxes: EEngineShowFlags := Bit(4)
  const SF_Grid: EEngineShowFlags := Bit(5)
  const SF_Lighting: EEngineShowFlags := Bit(6)
  const SF_OctreeDebug: EEngineShowFlags := Bit(7)
  const SF_BVHDebug: EEngineShowFlags := Bit(8)
  const SF_DefaultEnabled: EEngineShowFlags := SF_Primitives + SF_StaticMeshes + SF_Grid
  /** `0xFFFFFFFFFFFFFFFF`: all 64 bits. */
  const SF_All: EEngineShowFlags := set k: BitIndex | 0 <= k < 64

  /** `operator~`: the bits of the word that are clear. */
  function Complement(flags: EEngineShowFlags): (r: EEngineShowFlags)
    ensures forall k: BitIndex :: k in r <==> k !in flags
  {
    SF_All - flags
  }

  /** `HasShowFlag`: some bit of `flag` is set in `flags`. */
  predicate HasShowFlag(flags: EEngineShowFlags, flag: EEngineShowFlags)
  {
    flags * flag != NoShowFlags
  }

  /** `flags |= flag`. */
  function Enable(flags: EEngineShowFlags, flag: EEngineShowFlags): (r: EEngineShowFlags)
    ensures flag <= r && r - flag == flags - flag
  {
    flags + flag
  }

  /** `flags &= ~flag`. */
  function Disable(flags: EEngineShowFlags, flag: EEngineShowFlags): (r: EEngineShowFlags)
    ensures r * flag == NoShowFlags && r - flag == flags - flag
  {
    flags * Complement(flag)
  }

  /** A flag that was enabled is reported as set. */
  lemma EnableThenHas(flags: EEngineShowFlags, flag: EEngineShowFlags)
    requires flag != NoShowFlags
    ensures HasShowFlag(Enable(flags, flag), flag)
  {
    var k :| k in flag;
    assert k in Enable(flags, flag) * flag;
  }

  /** A flag that was disabled is reported as clear. */
  lemma DisableThenHasNot(flags: EEngineShowFlags, flag: EEngineShowFlags)
    ensures !HasShowFlag(Disable(flags, flag), flag)
  {
  }

  /** The flag set `HasShowFlag` tests with is no set: nothing is ever
      reported for it. */
  lemma NothingHasNone(flags: EEngineShowFlags)
    ensures !HasShowFlag(flags, NoShowFlags)
  {
  }

  /** The default flags are exactly primitives, static meshes and the grid
      (the word 0x23). */
  lemma DefaultEnabledFlags()
    ensures SF_DefaultEnabled == {0, 1, 5}
    ensures HasShowFlag(SF_DefaultEnabled, SF_Primitives) && HasShowFlag(SF_DefaultEnabled, SF_StaticMeshes)
    ensures HasShowFlag(SF_DefaultEnabled, SF_Grid)
    ensures !HasShowFlag(SF_DefaultEnabled, SF_Wireframe) && !HasShowFlag(SF_DefaultEnabled, SF_BillboardText)
    ensures !HasShowFlag(SF_DefaultEnabled, SF_BoundingBoxes) && !HasShowFlag(SF_DefaultEnabled, SF_Lighting)
    ensures !HasShowFlag(SF_DefaultEnabled, SF_OctreeDebug) && !HasShowFlag(SF_DefaultEnabled, SF_BVHDebug)
  {
    assert 0 in SF_DefaultEnabled * SF_Primitives;
    assert 1 in SF_DefaultEnabled * SF_StaticMeshes;
    assert 5 in SF_DefaultEnabled * SF_Grid;
  }

  /** `SF_All` holds every flag but the empty one. */
  lemma AllHasEvery(flag: EEngineShowFlags)
    requires flag != NoShowFlags
    ensures HasShowFlag(SF_All, flag)
  {
    var k :| k in flag;
    assert k in SF_All * flag;
  }

  // ---------------------------------------------------------------------
  // View modes

  datatype EViewModeIndex = VMI_None | VMI_Lit | VMI_Unlit | VMI_Wireframe | VMI_End

  // ---------------------------------------------------------------------
  // Archive records

  datatype Vec2 = Vec2(X: real, Y: real)
  datatype Vec4 = Vec4(X: real, Y: real, Z: real, W: real)

  /** One value in the archive: an integer, a `float`, a string or a
      `bool`. A vector is stored as its components. */
  datatype Token = Int(i: int) | Float(f: real) | Str(s: string) | Flag(b: bool)

  /** Counts are written as `uint32`. */
  const COUNT_MODULUS: int := 0x1_0000_0000

  datatype FObjMaterialInfo = FObjMaterialInfo(
    IlluminationModel: int,
    DiffuseColor: Vec, AmbientColor: Vec, SpecularColor: Vec, EmissiveColor: Vec,
    DiffuseTextureFileName: string, AmbientTextureFileName: string,
    SpecularTextureFileName: string, EmissiveTextureFileName: string,
    TransparencyTextureFileName: string, SpecularExponentTextureFileName: string,
    TransmissionFilter: Vec,
    OpticalDensity: real, Transparency: real, SpecularExponent: real,
    MaterialName: string)

  /** The field defaults: Phong illumination (2), white colours and filter,
      empty names, and -1 for the unspecified scalars. */
  function DefaultMaterialInfo(): (m: FObjMaterialInfo)
    ensures m.IlluminationModel == 2 && m.DiffuseColor == Vec(1.0, 1.0, 1.0)
    ensures m.OpticalDensity == -1.0 && m.Transparency == -1.0 && m.SpecularExponent == -1.0
    ensures m.MaterialName == [] && m.DiffuseTextureFileName == []
  {
    var one := Vec(1.0, 1.0, 1.0);
    FObjMaterialInfo(2, one, one, one, one, [], [], [], [], [], [], one, -1.0, -1.0, -1.0, [])
  }

  datatype FGroupInfo = FGroupInfo(StartIndex: nat, IndexCount: nat, InitialMaterialName: string)

  datatype FNormalVertex = FNormalVertex(Pos: Vec, Normal: Vec, Color: Vec4, Tex: Vec2)

  datatype FStaticMesh = FStaticMesh(
    PathFileName: string,
    Vertices: seq<FNormalVertex>,
    Indices: seq<nat>,
    GroupInfos: seq<FGroupInfo>,
    HasMaterial: bool)

  /** What a read returns: the value and the tokens after it. */
  type Read<T> = Option<(T, seq<Token>)>

  // Saving

  function SaveVec(v: Vec): seq<Token>
  {
    [Float(v.X), Float(v.Y), Float(v.Z)]
  }

  function SaveVec2(v: Vec2): seq<Token>
  {
    [Float(v.X), Float(v.Y)]
  }

  function SaveVec4(v: Vec4): seq<Token>
  {
    [Float(v.X), Float(v.Y), Float(v.Z), Float(v.W)]
  }

  /** `operator<<(FArchive&, FObjMaterialInfo&)` while saving: the
      illumination model and the four colours, the six texture names, then
      the transmission filter, the three scalars and the material name. */
  function SaveMaterialInfo(m: FObjMaterialInfo): seq<Token>
  {
    SaveMaterialHead(HeadOf(m)) + SaveStrings(TextureNames(m)) + SaveMaterialTail(TailOf(m))
  }

  /** The fields written before the texture names. */
  datatype MaterialHead = MaterialHead(IlluminationModel: int, Kd: Vec, Ka: Vec, Ks: Vec, Ke: Vec)

  /** The fields written after the texture names. */
  datatype MaterialTail = MaterialTail(Tf: Vec, Ni: real, Tr: real, Ns: real, Name: string)

  function HeadOf(m: FObjMaterialInfo): MaterialHead
  {
    MaterialHead(m.IlluminationModel, m.DiffuseColor, m.AmbientColor, m.SpecularColor, m.EmissiveColor)
  }

  function TailOf(m: FObjMaterialInfo): MaterialTail
  {
    MaterialTail(m.TransmissionFilter, m.OpticalDensity, m.Transparency, m.SpecularExponent, m.MaterialName)
  }

  function SaveMaterialHead(h: MaterialHead): seq<Token>
  {
    [Int(h.IlluminationModel)] + (SaveVec(h.Kd) + (SaveVec(h.Ka) + (SaveVec(h.Ks) + SaveVec(h.Ke))))
  }

  function SaveMaterialTail(t: MaterialTail): seq<Token>
  {
    SaveVec(t.Tf) + [Float(t.Ni), Float(t.Tr), Float(t.Ns), Str(t.Name)]
  }

  /** The six texture file names, in the order the archive holds them. */
  function TextureNames(m: FObjMaterialInfo): seq<string>
  {
    [m.DiffuseTextureFileName, m.AmbientTextureFileName, m.SpecularTextureFileName,
     m.EmissiveTextureFileName, m.TransparencyTextureFileName, m.SpecularExponentTextureFileName]
  }

  /** `operator<<(FArchive&, FGroupInfo&)` while saving. */
  function SaveGroupInfo(g: FGroupInfo): seq<Token>
  {
    [Int(g.StartIndex), Int(g.IndexCount), Str(g.InitialMaterialName)]
  }

  /** `operator<<(FArchive&, FNormalVertex&)`. */
  function SaveVertex(v: FNormalVertex): seq<Token>
  {
    SaveVec(v.Pos) + SaveVec(v.Normal) + SaveVec4(v.Color) + SaveVec2(v.Tex)
  }

  /** The elements of an array, one after another. */
  function SaveEach<T>(items: seq<T>, save: T -> seq<Token>): seq<Token>
  {
    if items == [] then [] else save(items[0]) + SaveEach(items[1..], save)
  }

  /** `WriteArray`: the element count as a `uint32`, then the elements. */
  function SaveArray<T>(items: seq<T>, save: T -> seq<Token>): seq<Token>
  {
    [Int(|items| % COUNT_MODULUS)] + SaveEach(items, save)
  }

  function SaveIndex(i: nat): seq<Token>
  {
    [Int(i)]
  }

  /** `operator<<(FArchive&, FStaticMesh&)` while saving. */
  function SaveStaticMesh(m: FStaticMesh): seq<Token>
  {
    [Str(m.PathFileName)] + SaveArray(m.Vertices, SaveVertex) + SaveArray(m.Indices, SaveIndex) +
    SaveArray(m.GroupInfos, SaveGroupInfo) + [Flag(m.HasMaterial)]
  }

  // Loading

  function LoadInt(ts: seq<Token>): (r: Read<int>)
    ensures r.Some? ==> |r.value.1| < |ts|
  {
    if ts != [] && ts[0].Int? then Some((ts[0].i, ts[1..])) else None
  }

  function LoadNat(ts: seq<Token>): (r: Read<nat>)
    ensures r.Some? ==> |r.value.1| < |ts|
  {
    if ts != [] && ts[0].Int? && ts[0].i >= 0 then Some((ts[0].i, ts[1..])) else None
  }

  function LoadFloat(ts: seq<Token>): (r: Read<real>)
    ensures r.Some? ==> |r.value.1| < |ts|
  {
    if ts != [] && ts[0].Float? then Some((ts[0].f, ts[1..])) else None
  }

  function LoadStr(ts: seq<Token>): (r: Read<string>)
    ensures r.Some? ==> |r.value.1| < |ts|
  {
    if ts != [] && ts[0].Str? then Some((ts[0].s, ts[1..])) else None
  }

  function LoadFlag(ts: seq<Token>): (r: Read<bool>)
    ensures r.Some? ==> |r.value.1| < |ts|
  {
    if ts != [] && ts[0].Flag? then Some((ts[0].b, ts[1..])) else None
  }

  function LoadVec(ts: seq<Token>): (r: Read<Vec>)
    ensures r.Some? ==> |r.value.1| < |ts|
  {
    if |ts| >= 3 && ts[0].Float? && ts[1].Float? && ts[2].Float? then
      Some((Vec(ts[0].f, ts[1].f, ts[2].f), ts[3..]))
    else None
  }

  function LoadVec2(ts: seq<Token>): (r: Read<Vec2>)
    ensures r.Some? ==> |r.value.1| < |ts|
  {
    if |ts| >= 2 && ts[0].Float? && ts[1].Float? then Some((Vec2(ts[0].f, ts[1].f), ts[2..])) else None
  }

  function LoadVec4(ts: seq<Token>): (r: Read<Vec4>)
    ensures r.Some? ==> |r.value.1| < |ts|
  {
    if |ts| >= 4 && ts[0].Float? && ts[1].Float? && ts[2].Float? && ts[3].Float? then
      Some((Vec4(ts[0].f, ts[1].f, ts[2].f, ts[3].f), ts[4..]))
    else None
  }

  /** Six strings in a row, as the texture names are read. */
  function LoadStrings(ts: seq<Token>, n: nat): (r: Read<seq<string>>)
    ensures r.Some? ==> |r.value.0| == n && |r.value.1| <= |ts|
  {
    if n == 0 then Some(([], ts))
    else
      match LoadStr(ts)
      case None => None
      case Some((s, rest)) =>
        match LoadStrings(rest, n - 1)
        case None => None
        case Some((ss, rest')) => Some(([s] + ss, rest'))
  }

  /** `operator<<(FArchive&, FObjMaterialInfo&)` while loading: the same
      fields in the same order. */
  function LoadMaterialInfo(ts: seq<Token>): (r: Read<FObjMaterialInfo>)
  {
    match LoadMaterialHead(ts)
    case None => None
    case Some((h, t1)) =>
    match LoadStrings(t1, 6)
    case None => None
    case Some((names, t2)) =>
    match LoadMaterialTail(t2)
    case None => None
    case Some((t, t3)) =>
      Some((FObjMaterialInfo(h.IlluminationModel, h.Kd, h.Ka, h.Ks, h.Ke,
                             names[0], names[1], names[2], names[3], names[4], names[5],
                             t.Tf, t.Ni, t.Tr, t.Ns, t.Name), t3))
  }

  function LoadMaterialHead(ts: seq<Token>): Read<MaterialHead>
  {
    match LoadInt(ts)
    case None => None
    case Some((illum, t1)) =>
    match LoadVec(t1)
    case None => None
    case Some((kd, t2)) =>
    match LoadVec(t2)
    case None => None
    case Some((ka, t3)) =>
    match LoadVec(t3)
    case None => None
    case Some((ks, t4)) =>
    match LoadVec(t4)
    case None => None
    case Some((ke, t5)) => Some((MaterialHead(illum, kd, ka, ks, ke), t5))
  }

  function LoadMaterialTail(ts: seq<Token>): Read<MaterialTail>
  {
    match LoadVec(ts)
    case None => None
    case Some((tf, t1)) =>
    match LoadFloat(t1)
    case None => None
    case Some((ni, t2)) =>
    match LoadFloat(t2)
    case None => None
    case Some((tr, t3)) =>
    match LoadFloat(t3)
    case None => None
    case Some((ns, t4)) =>
    match LoadStr(t4)
    case None => None
    case Some((name, t5)) => Some((MaterialTail(tf, ni, tr, ns, name), t5))
  }

  /** `operator<<(FArchive&, FGroupInfo&)` while loading. */
  function LoadGroupInfo(ts: seq<Token>): (r: Read<FGroupInfo>)
    ensures r.Some? ==> |r.value.1| < |ts|
  {
    match LoadNat(ts)
    case None => None
    case Some((start, t1)) =>
    match LoadNat(t1)
    case None => None
    case Some((count, t2)) =>
    match LoadStr(t2)
    case None => None
    case Some((name, t3)) => Some((FGroupInfo(start, count, name), t3))
  }

  function LoadVertex(ts: seq<Token>): (r: Read<FNormalVertex>)
    ensures r.Some? ==> |r.value.1| < |ts|
  {
    match LoadVec(ts)
    case None => None
    case Some((pos, t1)) =>
    match LoadVec(t1)
    case None => None
    case Some((normal, t2)) =>
    match LoadVec4(t2)
    case None => None
    case Some((color, t3)) =>
    match LoadVec2(t3)
    case None => None
    case Some((tex, t4)) => Some((FNormalVertex(pos, normal, color, tex), t4))
  }

  function LoadIndex(ts: seq<Token>): (r: Read<nat>)
    ensures r.Some? ==> |r.value.1| < |ts|
  {
    LoadNat(ts)
  }

  /** `n` elements, one after another. */
  function LoadEach<T>(ts: seq<Token>, n: nat, load: seq<Token> -> Read<T>): (r: Read<seq<T>>)
    ensures r.Some? ==> |r.value.0| == n
    decreases n
  {
    if n == 0 then Some(([], ts))
    else
      match load(ts)
      case None => None
      case Some((x, rest)) =>
        match LoadEach(rest, n - 1, load)
        case None => None
        case Some((xs, rest')) => Some(([x] + xs, rest'))
  }

  /** `ReadArray`: the count, then that many elements. */
  function LoadArray<T>(ts: seq<Token>, load: seq<Token> -> Read<T>): Read<seq<T>>
  {
    match LoadNat(ts)
    case None => None
    case Some((n, rest)) => LoadEach(rest, n, load)
  }

  /** `operator<<(FArchive&, FStaticMesh&)` while loading. */
  function LoadStaticMesh(ts: seq<Token>): Read<FStaticMesh>
  {
    match LoadStr(ts)
    case None => None
    case Some((path, t1)) =>
    match LoadArray(t1, LoadVertex)
    case None => None
    case Some((vertices, t2)) =>
    match LoadArray(t2, LoadIndex)
    case None => None
    case Some((indices, t3)) =>
    match LoadArray(t3, LoadGroupInfo)
    case None => None
    case Some((groups, t4)) =>
    match LoadFlag(t4)
    case None => None
    case Some((hasMaterial, t5)) => Some((FStaticMesh(path, vertices, indices, groups, hasMaterial), t5))
  }

  // Round trips

  lemma VecRoundTrip(v: Vec, rest: seq<Token>)
    ensures LoadVec(SaveVec(v) + rest) == Some((v, rest))
  {
    assert (SaveVec(v) + rest)[3..] == rest;
  }

  lemma Vec2RoundTrip(v: Vec2, rest: seq<Token>)
    ensures LoadVec2(SaveVec2(v) + rest) == Some((v, rest))
  {
    assert (SaveVec2(v) + rest)[2..] == rest;
  }

  lemma Vec4RoundTrip(v: Vec4, rest: seq<Token>)
    ensures LoadVec4(SaveVec4(v) + rest) == Some((v, rest))
  {
    assert (SaveVec4(v) + rest)[4..] == rest;
  }

  lemma StrRoundTrip(s: string, rest: seq<Token>)
    ensures LoadStr([Str(s)] + rest) == Some((s, rest))
  {
    assert ([Str(s)] + rest)[1..] == rest;
  }

  lemma FloatRoundTrip(f: real, rest: seq<Token>)
    ensures LoadFloat([Float(f)] + rest) == Some((f, rest))
  {
    assert ([Float(f)] + rest)[1..] == rest;
  }

  lemma MaterialHeadRoundTrip(h: MaterialHead, rest: seq<Token>)
    ensures LoadMaterialHead(SaveMaterialHead(h) + rest) == Some((h, rest))
  {
    var t4 := SaveVec(h.Ke) + rest;
    var t3 := SaveVec(h.Ks) + t4;
    var t2 := SaveVec(h.Ka) + t3;
    var t1 := SaveVec(h.Kd) + t2;
    assert SaveMaterialHead(h) + rest == [Int(h.IlluminationModel)] + t1;
    assert LoadInt([Int(h.IlluminationModel)] + t1) == Some((h.IlluminationModel, t1));
    VecRoundTrip(h.Kd, t2);
    VecRoundTrip(h.Ka, t3);
    VecRoundTrip(h.Ks, t4);
    VecRoundTrip(h.Ke, rest);
  }

  lemma MaterialTailRoundTrip(t: MaterialTail, rest: seq<Token>)
    ensures LoadMaterialTail(SaveMaterialTail(t) + rest) == Some((t, rest))
  {
    var t4 := [Str(t.Name)] + rest;
    var t3 := [Float(t.Ns)] + t4;
    var t2 := [Float(t.Tr)] + t3;
    var t1 := [Float(t.Ni)] + t2;
    assert SaveMaterialTail(t) + rest == SaveVec(t.Tf) + t1;
    VecRoundTrip(t.Tf, t1);
    FloatRoundTrip(t.Ni, t2);
    FloatRoundTrip(t.Tr, t3);
    FloatRoundTrip(t.Ns, t4);
    StrRoundTrip(t.Name, rest);
  }

  /** Loading a saved material reads back every field, in the order it was
      written, and leaves what follows. */
  lemma MaterialInfoRoundTrip(m: FObjMaterialInfo, rest: seq<Token>)
    ensures LoadMaterialInfo(SaveMaterialInfo(m) + rest) == Some((m, rest))
  {
    var t2 := SaveMaterialTail(TailOf(m)) + rest;
    var t1 := SaveStrings(TextureNames(m)) + t2;
    assert SaveMaterialInfo(m) + rest == SaveMaterialHead(HeadOf(m)) + t1;
    MaterialHeadRoundTrip(HeadOf(m), t1);
    StringsRoundTrip(TextureNames(m), t2);
    MaterialTailRoundTrip(TailOf(m), rest);
  }

  /** Strings written one after another are read back in order. */
  lemma {:induction false} StringsRoundTrip(names: seq<string>, rest: seq<Token>)
    ensures LoadStrings(SaveStrings(names) + rest, |names|) == Some((names, rest))
  {
    if names != [] {
      var tail := SaveStrings(names[1..]) + rest;
      assert SaveStrings(names) + rest == [Str(names[0])] + tail;
      StrRoundTrip(names[0], tail);
      StringsRoundTrip(names[1..], rest);
      assert LoadStrings(tail, |names| - 1) == Some((names[1..], rest));
      assert [names[0]] + names[1..] == names;
    } else {
      assert SaveStrings(names) + rest == rest;
    }
  }

  function SaveStrings(names: seq<string>): (r: seq<Token>)
    ensures |r| == |names| && forall k :: 0 <= k < |names| ==> r[k] == Str(names[k])
  {
    if names == [] then [] else [Str(names[0])] + SaveStrings(names[1..])
  }

  lemma GroupInfoRoundTrip(g: FGroupInfo, rest: seq<Token>)
    ensures LoadGroupInfo(SaveGroupInfo(g) + rest) == Some((g, rest))
  {
    var ts := SaveGroupInfo(g) + rest;
    assert ts[1..][1..][1..] == rest;
  }

  lemma VertexRoundTrip(v: FNormalVertex, rest: seq<Token>)
    ensures LoadVertex(SaveVertex(v) + rest) == Some((v, rest))
  {
    var t3 := SaveVec2(v.Tex) + rest;
    var t2 := SaveVec4(v.Color) + t3;
    var t1 := SaveVec(v.Normal) + t2;
    assert SaveVertex(v) + rest == SaveVec(v.Pos) + t1;
    VecRoundTrip(v.Pos, t1);
    VecRoundTrip(v.Normal, t2);
    Vec4RoundTrip(v.Color, t3);
    Vec2RoundTrip(v.Tex, rest);
  }

  lemma IndexRoundTrip(i: nat, rest: seq<Token>)
    ensures LoadIndex(SaveIndex(i) + rest) == Some((i, rest))
  {
    assert (SaveIndex(i) + rest)[1..] == rest;
  }

  /** Elements saved one after another are loaded back, given that each
      element round-trips on its own. */
  lemma {:induction false} EachRoundTrip<T>(items: seq<T>, save: T -> seq<Token>, load: seq<Token> -> Read<T>, rest: seq<Token>)
    requires forall x, r :: load(save(x) + r) == Some((x, r))
    ensures LoadEach(SaveEach(items, save) + rest, |items|, load) == Some((items, rest))
  {
    if items != [] {
      var tail := SaveEach(items[1..], save) + rest;
      assert SaveEach(items, save) + rest == save(items[0]) + tail;
      assert load(save(items[0]) + tail) == Some((items[0], tail));
      EachRoundTrip(items[1..], save, load, rest);
      assert LoadEach(tail, |items| - 1, load) == Some((items[1..], rest));
      assert [items[0]] + items[1..] == items;
    } else {
      assert SaveEach(items, save) + rest == rest;
    }
  }

  /** An array with fewer than 2^32 elements round-trips; a longer one
      would have its count cut to 32 bits. */
  lemma ArrayRoundTrip<T>(items: seq<T>, save: T -> seq<Token>, load: seq<Token> -> Read<T>, rest: seq<Token>)
    requires |items| < COUNT_MODULUS
    requires forall x, r :: load(save(x) + r) == Some((x, r))
    ensures LoadArray(SaveArray(items, save) + rest, load) == Some((items, rest))
  {
    var ts := SaveArray(items, save) + rest;
    assert ts == [Int(|items|)] + (SaveEach(items, save) + rest);
    assert ts[1..] == SaveEach(items, save) + rest;
    EachRoundTrip(items, save, load, rest);
  }

  lemma VertexArrayRoundTrip(items: seq<FNormalVertex>, rest: seq<Token>)
    requires |items| < COUNT_MODULUS
    ensures LoadArray(SaveArray(items, SaveVertex) + rest, LoadVertex) == Some((items, rest))
  {
    forall x, r ensures LoadVertex(SaveVertex(x) + r) == Some((x, r)) {
      VertexRoundTrip(x, r);
    }
    ArrayRoundTrip(items, SaveVertex, LoadVertex, rest);
  }

  lemma IndexArrayRoundTrip(items: seq<nat>, rest: seq<Token>)
    requires |items| < COUNT_MODULUS
    ensures LoadArray(SaveArray(items, SaveIndex) + rest, LoadIndex) == Some((items, rest))
  {
    forall x, r ensures LoadIndex(SaveIndex(x) + r) == Some((x, r)) {
      IndexRoundTrip(x, r);
    }
    ArrayRoundTrip(items, SaveIndex, LoadIndex, rest);
  }

  lemma GroupArrayRoundTrip(items: seq<FGroupInfo>, rest: seq<Token>)
    requires |items| < COUNT_MODULUS
    ensures LoadArray(SaveArray(items, SaveGroupInfo) + rest, LoadGroupInfo) == Some((items, rest))
  {
    forall x, r ensures LoadGroupInfo(SaveGroupInfo(x) + r) == Some((x, r)) {
      GroupInfoRoundTrip(x, r);
    }
    ArrayRoundTrip(items, SaveGroupInfo, LoadGroupInfo, rest);
  }

  /** Loading a saved static mesh gives back the mesh, when none of its
      arrays has 2^32 or more elements. */
  lemma StaticMeshRoundTrip(m: FStaticMesh, rest: seq<Token>)
    requires |m.Vertices| < COUNT_MODULUS && |m.Indices| < COUNT_MODULUS && |m.GroupInfos| < COUNT_MODULUS
    ensures LoadStaticMesh(SaveStaticMesh(m) + rest) == Some((m, rest))
  {
    var t4 := [Flag(m.HasMaterial)] + rest;
    var t3 := SaveArray(m.GroupInfos, SaveGroupInfo) + t4;
    var t2 := SaveArray(m.Indices, SaveIndex) + t3;
    var t1 := SaveArray(m.Vertices, SaveVertex) + t2;
    assert SaveStaticMesh(m) + rest == [Str(m.PathFileName)] + t1;
    StrRoundTrip(m.PathFileName, t1);
    VertexArrayRoundTrip(m.Vertices, t2);
    IndexArrayRoundTrip(m.Indices, t3);
    GroupArrayRoundTrip(m.GroupInfos, t4);
    assert t4[1..] == rest;
  }

  /** A material array (`WriteArray<FObjMaterialInfo>`) round-trips. */
  lemma MaterialArrayRoundTrip(items: seq<FObjMaterialInfo>, rest: seq<Token>)
    requires |items| < COUNT_MODULUS
    ensures LoadArray(SaveArray(items, SaveMaterialInfo) + rest, LoadMaterialInfo) == Some((items, rest))
  {
    forall x, r ensures LoadMaterialInfo(SaveMaterialInfo(x) + r) == Some((x, r)) {
      MaterialInfoRoundTrip(x, r);
    }
    ArrayRoundTrip(items, SaveMaterialInfo, LoadMaterialInfo, rest);
  }
}
