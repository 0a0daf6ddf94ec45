/** Materials and dynamic material instances
    (Mundi/Source/Runtime/Renderer/Material.cpp).

    A texture or shader is a resource handle (`nat`), `None` standing for a
    null pointer; what the resource manager loads for a path is passed in
    by the caller. Floats are reals. */
module Material {
  import opened Text

  /** `EMaterialTextureSlot`, an 8-bit enumeration: any value up to 255
      can be cast to it, only `Diffuse` and `Normal` are named. */
  type Slot = s: nat | s < 256

  const Diffuse: Slot := 0
  const Normal: Slot := 1
  /** `EMaterialTextureSlot::Max`, the number of named slots. */
  const MaxSlots: nat := 2

  datatype FVector = FVector(X: real, Y: real, Z: real)

  datatype FLinearColor = FLinearColor(R: real, G: real, B: real, A: real)

  /** The fields of `FMaterialInfo` the material code reads or writes. */
  datatype FMaterialInfo = FMaterialInfo(
    MaterialName: string,
    DiffuseTextureFileName: string,
    NormalTextureFileName: string,
    SpecularExponent: real,
    OpticalDensity: real,
    Transparency: real,
    BumpMultiplier: real,
    IlluminationModel: int,
    DiffuseColor: FVector,
    AmbientColor: FVector,
    SpecularColor: FVector,
    EmissiveColor: FVector,
    TransmissionFilter: FVector)

  /** `RGB` of a linear colour, its alpha dropped. */
  function ColorVector(c: FLinearColor): FVector
  {
    FVector(c.R, c.G, c.B)
  }

  /** One scalar override applied to the cached information, as the
      scalar loop of `GetMaterialInfo` does: a name outside the five it
      knows changes nothing. */
  function ApplyScalar(info: FMaterialInfo, name: string, value: real): FMaterialInfo
  {
    if name == "SpecularExponent" then info.(SpecularExponent := value)
    else if name == "OpticalDensity" then info.(OpticalDensity := value)
    else if name == "Transparency" then info.(Transparency := value)
    else if name == "BumpMultiplier" then info.(BumpMultiplier := value)
    else if name == "IlluminationModel" then info.(IlluminationModel := TruncateToInt(value))
    else info
  }

  /** One vector override applied, as the vector loop does. */
  function ApplyVector(info: FMaterialInfo, name: string, value: FLinearColor): FMaterialInfo
  {
    var c := ColorVector(value);
    if name == "DiffuseColor" then info.(DiffuseColor := c)
    else if name == "AmbientColor" then info.(AmbientColor := c)
    else if name == "SpecularColor" then info.(SpecularColor := c)
    else if name == "EmissiveColor" then info.(EmissiveColor := c)
    else if name == "TransmissionFilter" then info.(TransmissionFilter := c)
    else info
  }

  /** The value of a scalar override among `names`, or `otherwise`. */
  function ScalarOr(scalars: map<string, real>, names: set<string>, name: string, otherwise: real): real
  {
    if name in names && name in scalars then scalars[name] else otherwise
  }

  function VectorOr(vectors: map<string, FLinearColor>, names: set<string>, name: string, otherwise: FVector): FVector
  {
    if name in names && name in vectors then ColorVector(vectors[name]) else otherwise
  }

  /** `base` with the scalar overrides named in `names` in place, field by
      field: a reference definition that does not depend on the order in
      which a map is walked. */
  function WithScalars(base: FMaterialInfo, scalars: map<string, real>, names: set<string>): FMaterialInfo
  {
    base.(
      SpecularExponent := ScalarOr(scalars, names, "SpecularExponent", base.SpecularExponent),
      OpticalDensity := ScalarOr(scalars, names, "OpticalDensity", base.OpticalDensity),
      Transparency := ScalarOr(scalars, names, "Transparency", base.Transparency),
      BumpMultiplier := ScalarOr(scalars, names, "BumpMultiplier", base.BumpMultiplier),
      IlluminationModel :=
        if "IlluminationModel" in names && "IlluminationModel" in scalars
        then TruncateToInt(scalars["IlluminationModel"]) else base.IlluminationModel)
  }

  function WithVectors(base: FMaterialInfo, vectors: map<string, FLinearColor>, names: set<string>): FMaterialInfo
  {
    base.(
      DiffuseColor := VectorOr(vectors, names, "DiffuseColor", base.DiffuseColor),
      AmbientColor := VectorOr(vectors, names, "AmbientColor", base.AmbientColor),
      SpecularColor := VectorOr(vectors, names, "SpecularColor", base.SpecularColor),
      EmissiveColor := VectorOr(vectors, names, "EmissiveColor", base.EmissiveColor),
      TransmissionFilter := VectorOr(vectors, names, "TransmissionFilter", base.TransmissionFilter))
  }

  /** The information a dynamic instance shows over `base`: every known
      scalar and vector it overrides takes the override's value, every
      other field is the base's. */
  function Overridden(base: FMaterialInfo, scalars: map<string, real>, vectors: map<string, FLinearColor>): (r: FMaterialInfo)
    ensures r.MaterialName == base.MaterialName
    ensures r.DiffuseTextureFileName == base.DiffuseTextureFileName && r.NormalTextureFileName == base.NormalTextureFileName
    ensures "SpecularExponent" in scalars ==> r.SpecularExponent == scalars["SpecularExponent"]
    ensures "SpecularExponent" !in scalars ==> r.SpecularExponent == base.SpecularExponent
    ensures "IlluminationModel" in scalars ==> r.IlluminationModel == TruncateToInt(scalars["IlluminationModel"])
    ensures "IlluminationModel" !in scalars ==> r.IlluminationModel == base.IlluminationModel
    ensures "DiffuseColor" in vectors ==> r.DiffuseColor == ColorVector(vectors["DiffuseColor"])
    ensures "DiffuseColor" !in vectors ==> r.DiffuseColor == base.DiffuseColor
    ensures scalars == map[] && vectors == map[] ==> r == base
  {
    WithVectors(WithScalars(base, scalars, scalars.Keys), vectors, vectors.Keys)
  }

  /** Rebuilding twice gives what rebuilding once gives: overrides are
      values, not increments. */
  lemma OverriddenIdempotent(base: FMaterialInfo, scalars: map<string, real>, vectors: map<string, FLinearColor>)
    ensures Overridden(Overridden(base, scalars, vectors), scalars, vectors) == Overridden(base, scalars, vectors)
  {
  }

  /** One more scalar name taken into the reference definition is one more
      `ApplyScalar`. */
  lemma WithScalarsStep(base: FMaterialInfo, scalars: map<string, real>, done: set<string>, name: string)
    requires name in scalars && name !in done
    ensures WithScalars(base, scalars, done + {name}) == ApplyScalar(WithScalars(base, scalars, done), name, scalars[name])
  {
  }

  lemma WithVectorsStep(base: FMaterialInfo, vectors: map<string, FLinearColor>, done: set<string>, name: string)
    requires name in vectors && name !in done
    ensures WithVectors(base, vectors, done + {name}) == ApplyVector(WithVectors(base, vectors, done), name, vectors[name])
  {
  }

  /** The scalar loop of `GetMaterialInfo`, walking the map in whatever
      order: every override lands in its field. */
  method ApplyScalars(base: FMaterialInfo, scalars: map<string, real>) returns (info: FMaterialInfo)
    ensures info == WithScalars(base, scalars, scalars.Keys)
  {
    info := base;
    var todo := scalars.Keys;
    while todo != {}
      invariant todo <= scalars.Keys
      invariant info == WithScalars(base, scalars, scalars.Keys - todo)
      decreases |todo|
    {
      var name :| name in todo;
      WithScalarsStep(base, scalars, scalars.Keys - todo, name);
      assert scalars.Keys - (todo - {name}) == (scalars.Keys - todo) + {name};
      info := ApplyScalar(info, name, scalars[name]);
      todo := todo - {name};
    }
  }

  /** The vector loop of `GetMaterialInfo`. */
  method ApplyVectors(base: FMaterialInfo, vectors: map<string, FLinearColor>) returns (info: FMaterialInfo)
    ensures info == WithVectors(base, vectors, vectors.Keys)
  {
    info := base;
    var todo := vectors.Keys;
    while todo != {}
      invariant todo <= vectors.Keys
      invariant info == WithVectors(base, vectors, vectors.Keys - todo)
      decreases |todo|
    {
      var name :| name in todo;
      WithVectorsStep(base, vectors, vectors.Keys - todo, name);
      assert vectors.Keys - (todo - {name}) == (vectors.Keys - todo) + {name};
      info := ApplyVector(info, name, vectors[name]);
      todo := todo - {name};
    }
  }

  class UMaterial {
    var Shader: Option<nat>
    var MaterialInfo: FMaterialInfo
    /** Entry `i` is the texture of slot `i`. */
    var ResolvedTextures: seq<Option<nat>>

    /** A texture is resolved in a named slot only where that slot has a
        file name. */
    ghost predicate TexturesHaveNames()
      reads this
    {
      forall s: Slot :: s < MaxSlots && GetTexture(s).Some? ==> HasTexture(s)
    }

    /** The array starts with one null entry per named slot. */
    constructor ()
      ensures Shader == None && ResolvedTextures == [None, None]
      ensures TexturesHaveNames()
    {
      Shader := None;
      ResolvedTextures := [None, None];
    }

    /** `Load`: the path becomes the material's name; a `.dds` path loads
        the proper shader and becomes the diffuse texture's file name, an
        `.hlsl` path is the shader; any other path is an error. `shader`
        is what the resource manager returns. */
    method Load(path: string, shader: Option<nat>) returns (r: Result<bool>)
      modifies this`MaterialInfo, this`Shader
      ensures MaterialInfo.MaterialName == path
      ensures r.Ok? <==> Contains(path, ".dds") || Contains(path, ".hlsl")
      ensures r.Ok? ==> Shader == shader
      ensures r.Err? ==> Shader == old(Shader)
      ensures MaterialInfo.DiffuseTextureFileName ==
                if Contains(path, ".dds") then path else old(MaterialInfo.DiffuseTextureFileName)
      ensures MaterialInfo == old(MaterialInfo).(MaterialName := path, DiffuseTextureFileName := MaterialInfo.DiffuseTextureFileName)
    {
      MaterialInfo := MaterialInfo.(MaterialName := path);
      if Contains(path, ".dds") {
        Shader := shader;
        MaterialInfo := MaterialInfo.(DiffuseTextureFileName := path);
        r := Ok(true);
      } else if Contains(path, ".hlsl") {
        Shader := shader;
        r := Ok(true);
      } else {
        r := Err("only .dds or .hlsl files can be loaded");
      }
    }

    method SetShader(shader: Option<nat>)
      modifies this`Shader
      ensures Shader == shader
    {
      Shader := shader;
    }

    /** `GetTexture`: the slot's texture, null beyond the array. */
    function GetTexture(slot: Slot): (r: Option<nat>)
      reads this
      ensures slot >= |ResolvedTextures| ==> r == None
      ensures slot < |ResolvedTextures| ==> r == ResolvedTextures[slot]
    {
      if slot < |ResolvedTextures| then ResolvedTextures[slot] else None
    }

    /** `HasTexture`: only the named slots can have one, exactly when
        their file name is set. */
    predicate HasTexture(slot: Slot)
      reads this
      ensures HasTexture(slot) <==>
                (slot == Diffuse && MaterialInfo.DiffuseTextureFileName != "") ||
                (slot == Normal && MaterialInfo.NormalTextureFileName != "")
    {
      if slot == Diffuse then MaterialInfo.DiffuseTextureFileName != ""
      else if slot == Normal then MaterialInfo.NormalTextureFileName != ""
      else false
    }

    /** `SetTexture`: the array grows with null entries to reach the slot;
        the slot holds what was loaded for a non-empty path and null for
        an empty one; a named slot's file name follows the path even when
        loading failed. No other slot's texture or name changes. */
    method SetTexture(slot: Slot, path: string, loaded: Option<nat>)
      modifies this`ResolvedTextures, this`MaterialInfo
      ensures |ResolvedTextures| == if slot < |old(ResolvedTextures)| then |old(ResolvedTextures)| else slot + 1
      ensures GetTexture(slot) == if path == "" then None else loaded
      ensures forall s: Slot :: s != slot ==> GetTexture(s) == old(GetTexture(s))
      ensures slot == Diffuse || slot == Normal ==> (HasTexture(slot) <==> path != "")
      ensures forall s: Slot :: s != slot ==> (HasTexture(s) <==> old(HasTexture(s)))
      ensures MaterialInfo ==
                if slot == Diffuse then old(MaterialInfo).(DiffuseTextureFileName := path)
                else if slot == Normal then old(MaterialInfo).(NormalTextureFileName := path)
                else old(MaterialInfo)
      ensures old(TexturesHaveNames()) ==> TexturesHaveNames()
    {
      if slot >= |ResolvedTextures| {
        ResolvedTextures := ResolvedTextures + seq(slot + 1 - |ResolvedTextures|, _ => None);
      }
      var texture := if path == "" then None else loaded;
      ResolvedTextures := ResolvedTextures[slot := texture];
      if slot == Diffuse {
        MaterialInfo := MaterialInfo.(DiffuseTextureFileName := path);
      } else if slot == Normal {
        MaterialInfo := MaterialInfo.(NormalTextureFileName := path);
      }
    }

    /** `ResolveTextures`: the array is cut or padded to one entry per
        named slot, each holding what `load` gives for its file name, or
        null when it has none. */
    method ResolveTextures(load: string -> Option<nat>)
      modifies this`ResolvedTextures
      ensures |ResolvedTextures| == MaxSlots
      ensures ResolvedTextures[Diffuse] ==
                if MaterialInfo.DiffuseTextureFileName == "" then None else load(MaterialInfo.DiffuseTextureFileName)
      ensures ResolvedTextures[Normal] ==
                if MaterialInfo.NormalTextureFileName == "" then None else load(MaterialInfo.NormalTextureFileName)
      ensures TexturesHaveNames()
    {
      if |ResolvedTextures| != MaxSlots {
        if |ResolvedTextures| > MaxSlots {
          ResolvedTextures := ResolvedTextures[..MaxSlots];
        } else {
          ResolvedTextures := ResolvedTextures + seq(MaxSlots - |ResolvedTextures|, _ => None);
        }
      }
      var diffuse := MaterialInfo.DiffuseTextureFileName;
      ResolvedTextures := ResolvedTextures[Diffuse := if diffuse != "" then load(diffuse) else None];
      var normal := MaterialInfo.NormalTextureFileName;
      ResolvedTextures := ResolvedTextures[Normal := if normal != "" then load(normal) else None];
    }

    /** `SetMaterialInfo`: the information is replaced and the textures
        resolved again from its file names. */
    method SetMaterialInfo(info: FMaterialInfo, load: string -> Option<nat>)
      modifies this`MaterialInfo, this`ResolvedTextures
      ensures MaterialInfo == info
      ensures |ResolvedTextures| == MaxSlots
      ensures forall s: Slot :: s < MaxSlots ==>
                GetTexture(s) == if HasTexture(s) then load(if s == Diffuse then info.DiffuseTextureFileName else info.NormalTextureFileName) else None
      ensures TexturesHaveNames()
    {
      MaterialInfo := info;
      ResolveTextures(load);
    }
  }

  /** A `UMaterialInterface` pointer: a material or a dynamic instance. */
  datatype MaterialInterface = MaterialOf(material: UMaterial) | InstanceOf(instance: UMaterialInstanceDynamic)

  class UMaterialInstanceDynamic {
    var ParentMaterial: UMaterial?
    var OverriddenTextures: map<Slot, Option<nat>>
    var OverriddenScalarParameters: map<string, real>
    var OverriddenVectorParameters: map<string, FLinearColor>
    var CachedMaterialInfo: FMaterialInfo
    var bIsCachedMaterialInfoDirty: bool

    /** The constructor only records the parent; the cache starts out of
        date. */
    constructor (parent: UMaterial?)
      ensures ParentMaterial == parent
      ensures OverriddenTextures == map[] && OverriddenScalarParameters == map[] && OverriddenVectorParameters == map[]
      ensures bIsCachedMaterialInfoDirty
    {
      ParentMaterial := parent;
      OverriddenTextures := map[];
      OverriddenScalarParameters := map[];
      OverriddenVectorParameters := map[];
      bIsCachedMaterialInfoDirty := true;
    }

    /** `Create`: no instance without a parent or over another dynamic
        instance; otherwise a fresh instance of the material with nothing
        overridden. */
    static method Create(parent: Option<MaterialInterface>) returns (r: UMaterialInstanceDynamic?)
      ensures parent.None? || parent.value.InstanceOf? ==> r == null
      ensures parent.Some? && parent.value.MaterialOf? ==>
                r != null && fresh(r) && r.ParentMaterial == parent.value.material &&
                r.OverriddenTextures == map[] && r.OverriddenScalarParameters == map[] &&
                r.OverriddenVectorParameters == map[] && r.bIsCachedMaterialInfoDirty
    {
      if parent.None? {
        return null;
      }
      if parent.value.InstanceOf? {
        return null;
      }
      r := new UMaterialInstanceDynamic(parent.value.material);
    }

    /** `GetShader`: always the parent's. */
    function GetShader(): (r: Option<nat>)
      reads this, ParentMaterial
      ensures ParentMaterial == null ==> r == None
      ensures ParentMaterial != null ==> r == ParentMaterial.Shader
    {
      if ParentMaterial != null then ParentMaterial.Shader else None
    }

    /** `GetTexture`: an override wins, even a null one; otherwise the
        parent's texture, or null without a parent. */
    function GetTexture(slot: Slot): (r: Option<nat>)
      reads this, ParentMaterial
      ensures slot in OverriddenTextures ==> r == OverriddenTextures[slot]
      ensures slot !in OverriddenTextures && ParentMaterial != null ==> r == ParentMaterial.GetTexture(slot)
      ensures slot !in OverriddenTextures && ParentMaterial == null ==> r == None
    {
      if slot in OverriddenTextures then OverriddenTextures[slot]
      else if ParentMaterial != null then ParentMaterial.GetTexture(slot)
      else None
    }

    /** `HasTexture`: an overridden slot has a texture whatever the
        override's value, so a null override gives a slot that has a
        texture and returns none; otherwise the parent decides. */
    predicate HasTexture(slot: Slot)
      reads this, ParentMaterial
      ensures slot in OverriddenTextures ==> HasTexture(slot)
      ensures slot in OverriddenTextures && OverriddenTextures[slot] == None ==> HasTexture(slot) && GetTexture(slot) == None
      ensures slot !in OverriddenTextures ==> (HasTexture(slot) <==> ParentMaterial != null && ParentMaterial.HasTexture(slot))
    {
      if slot in OverriddenTextures then true
      else if ParentMaterial != null then ParentMaterial.HasTexture(slot)
      else false
    }

    /** `GetMaterialInfo`: a clean cache is returned as it is; a dirty one
        is rebuilt from the parent's information (or from itself without
        a parent) with every override in place, and becomes clean. */
    method GetMaterialInfo() returns (info: FMaterialInfo)
      modifies this`CachedMaterialInfo, this`bIsCachedMaterialInfoDirty
      ensures !bIsCachedMaterialInfoDirty && info == CachedMaterialInfo
      ensures !old(bIsCachedMaterialInfoDirty) ==> info == old(CachedMaterialInfo)
      ensures old(bIsCachedMaterialInfoDirty) ==>
                info == Overridden(if ParentMaterial != null then ParentMaterial.MaterialInfo else old(CachedMaterialInfo),
                                   OverriddenScalarParameters, OverriddenVectorParameters)
    {
      if bIsCachedMaterialInfoDirty {
        var base := if ParentMaterial != null then ParentMaterial.MaterialInfo else CachedMaterialInfo;
        var scalars := ApplyScalars(base, OverriddenScalarParameters);
        var both := ApplyVectors(scalars, OverriddenVectorParameters);
        CachedMaterialInfo := both;
        bIsCachedMaterialInfoDirty := false;
      }
      info := CachedMaterialInfo;
    }

    /** `CopyParametersFrom`: nothing for null; otherwise the other
        instance's overrides replace these and the cache is out of date.
        The parent is kept. */
    method CopyParametersFrom(other: UMaterialInstanceDynamic?)
      modifies this
      ensures ParentMaterial == old(ParentMaterial) && CachedMaterialInfo == old(CachedMaterialInfo)
      ensures other == null ==>
                OverriddenTextures == old(OverriddenTextures) && OverriddenScalarParameters == old(OverriddenScalarParameters) &&
                OverriddenVectorParameters == old(OverriddenVectorParameters) && bIsCachedMaterialInfoDirty == old(bIsCachedMaterialInfoDirty)
      ensures other != null ==>
                OverriddenTextures == old(other.OverriddenTextures) && OverriddenScalarParameters == old(other.OverriddenScalarParameters) &&
                OverriddenVectorParameters == old(other.OverriddenVectorParameters) && bIsCachedMaterialInfoDirty
    {
      if other == null {
        return;
      }
      var textures, scalars, vectors := other.OverriddenTextures, other.OverriddenScalarParameters, other.OverriddenVectorParameters;
      OverriddenTextures := textures;
      OverriddenScalarParameters := scalars;
      OverriddenVectorParameters := vectors;
      bIsCachedMaterialInfoDirty := true;
    }

    /** `SetTextureParameterValue`: the slot is overridden, the cache's
        state is left as it is, and every other slot reads as before. */
    method SetTextureParameterValue(slot: Slot, value: Option<nat>)
      modifies this`OverriddenTextures
      ensures OverriddenTextures == old(OverriddenTextures)[slot := value]
      ensures GetTexture(slot) == value && HasTexture(slot)
      ensures forall s: Slot :: s != slot ==> GetTexture(s) == old(GetTexture(s)) && (HasTexture(s) <==> old(HasTexture(s)))
    {
      OverriddenTextures := OverriddenTextures[slot := value];
    }

    /** `SetVectorParameterValue`: the named override is added or
        replaced and the cache is out of date. */
    method SetVectorParameterValue(name: string, value: FLinearColor)
      modifies this`OverriddenVectorParameters, this`bIsCachedMaterialInfoDirty
      ensures OverriddenVectorParameters == old(OverriddenVectorParameters)[name := value]
      ensures bIsCachedMaterialInfoDirty
    {
      OverriddenVectorParameters := OverriddenVectorParameters[name := value];
      bIsCachedMaterialInfoDirty := true;
    }

    /** `SetScalarParameterValue`: as for vectors. */
    method SetScalarParameterValue(name: string, value: real)
      modifies this`OverriddenScalarParameters, this`bIsCachedMaterialInfoDirty
      ensures OverriddenScalarParameters == old(OverriddenScalarParameters)[name := value]
      ensures bIsCachedMaterialInfoDirty
    {
      OverriddenScalarParameters := OverriddenScalarParameters[name := value];
      bIsCachedMaterialInfoDirty := true;
    }

    /** `SetOverriddenTextureParameters`: the texture overrides are
        replaced; unlike the single-slot setter this marks the cache out
        of date. */
    method SetOverriddenTextureParameters(textures: map<Slot, Option<nat>>)
      modifies this`OverriddenTextures, this`bIsCachedMaterialInfoDirty
      ensures OverriddenTextures == textures && bIsCachedMaterialInfoDirty
    {
      OverriddenTextures := textures;
      bIsCachedMaterialInfoDirty := true;
    }

    method SetOverriddenScalarParameters(scalars: map<string, real>)
      modifies this`OverriddenScalarParameters, this`bIsCachedMaterialInfoDirty
      ensures OverriddenScalarParameters == scalars && bIsCachedMaterialInfoDirty
    {
      OverriddenScalarParameters := scalars;
      bIsCachedMaterialInfoDirty := true;
    }

    method SetOverriddenVectorParameters(vectors: map<string, FLinearColor>)
      modifies this`OverriddenVectorParameters, this`bIsCachedMaterialInfoDirty
      ensures OverriddenVectorParameters == vectors && bIsCachedMaterialInfoDirty
    {
      OverriddenVectorParameters := vectors;
      bIsCachedMaterialInfoDirty := true;
    }
  }
}
