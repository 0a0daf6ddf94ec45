/** A particle LOD level's module bookkeeping (ParticleLODLevel.cpp): the
    owned module list, the spawn and update caches built from the modules'
    flags, the required module and the convenience pointer to the first
    spawn-rate module. A module is an object identified by reference; its
    flags are fixed here, since only the caching reads them. */
module ParticleLODLevel {
  import opened Text

  class UParticleModule {
    const Enabled: bool
    const SpawnFlag: bool
    const UpdateFlag: bool
    /** The module is a `UParticleModuleSpawn`. */
    const IsSpawnRate: bool

    constructor(enabled: bool, spawn: bool, update: bool, spawnRate: bool)
      ensures Enabled == enabled && SpawnFlag == spawn && UpdateFlag == update && IsSpawnRate == spawnRate
    {
      Enabled := enabled;
      SpawnFlag := spawn;
      UpdateFlag := update;
      IsSpawnRate := spawnRate;
    }

    /** The same flags and type as `other`. */
    predicate SameAs(other: UParticleModule)
    {
      Enabled == other.Enabled && SpawnFlag == other.SpawnFlag &&
      UpdateFlag == other.UpdateFlag && IsSpawnRate == other.IsSpawnRate
    }
  }

  /** The spawn cache of a module list: its non-null enabled modules with the
      spawn flag, in list order. */
  function SpawnList(mods: seq<UParticleModule?>): seq<UParticleModule>
  {
    if mods == [] then []
    else var rest := SpawnList(mods[1..]);
      if mods[0] != null && mods[0].Enabled && mods[0].SpawnFlag then [mods[0]] + rest else rest
  }

  /** The update cache: the same with the update flag. */
  function UpdateList(mods: seq<UParticleModule?>): seq<UParticleModule>
  {
    if mods == [] then []
    else var rest := UpdateList(mods[1..]);
      if mods[0] != null && mods[0].Enabled && mods[0].UpdateFlag then [mods[0]] + rest else rest
  }

  /** The non-null modules of a list, in order. */
  function NonNull(mods: seq<UParticleModule?>): seq<UParticleModule>
  {
    if mods == [] then []
    else var rest := NonNull(mods[1..]);
      if mods[0] != null then [mods[0]] + rest else rest
  }

  /** The position of the first spawn-rate module, or `|mods|`. */
  function FirstSpawnRate(mods: seq<UParticleModule?>): (k: nat)
    ensures k <= |mods|
    ensures k < |mods| ==> mods[k] != null && mods[k].IsSpawnRate
    ensures forall j :: 0 <= j < k ==> mods[j] == null || !mods[j].IsSpawnRate
  {
    if mods == [] then 0
    else if mods[0] != null && mods[0].IsSpawnRate then 0
    else 1 + FirstSpawnRate(mods[1..])
  }

  lemma {:induction false} SpawnListAppend(mods: seq<UParticleModule?>, m: UParticleModule?)
    ensures SpawnList(mods + [m]) ==
      SpawnList(mods) + (if m != null && m.Enabled && m.SpawnFlag then [m] else [])
  {
    if mods != [] {
      assert (mods + [m])[1..] == mods[1..] + [m];
      SpawnListAppend(mods[1..], m);
    }
  }

  lemma {:induction false} UpdateListAppend(mods: seq<UParticleModule?>, m: UParticleModule?)
    ensures UpdateList(mods + [m]) ==
      UpdateList(mods) + (if m != null && m.Enabled && m.UpdateFlag then [m] else [])
  {
    if mods != [] {
      assert (mods + [m])[1..] == mods[1..] + [m];
      UpdateListAppend(mods[1..], m);
    }
  }

  lemma {:induction false} NonNullAppend(mods: seq<UParticleModule?>, m: UParticleModule?)
    ensures NonNull(mods + [m]) == NonNull(mods) + (if m != null then [m] else [])
  {
    if mods != [] {
      assert (mods + [m])[1..] == mods[1..] + [m];
      NonNullAppend(mods[1..], m);
    }
  }

  /** A module is in the spawn cache exactly when it is in the list, enabled
      and flagged for spawning. */
  lemma {:induction false} SpawnListMembers(mods: seq<UParticleModule?>)
    ensures forall m :: m in SpawnList(mods) ==> m in mods && m.Enabled && m.SpawnFlag
    ensures forall m: UParticleModule :: m in mods && m.Enabled && m.SpawnFlag ==> m in SpawnList(mods)
  {
    if mods != [] {
      SpawnListMembers(mods[1..]);
      assert mods == [mods[0]] + mods[1..];
    }
  }

  /** A module is in the update cache exactly when it is in the list, enabled
      and flagged for updating. */
  lemma {:induction false} UpdateListMembers(mods: seq<UParticleModule?>)
    ensures forall m :: m in UpdateList(mods) ==> m in mods && m.Enabled && m.UpdateFlag
    ensures forall m: UParticleModule :: m in mods && m.Enabled && m.UpdateFlag ==> m in UpdateList(mods)
  {
    if mods != [] {
      UpdateListMembers(mods[1..]);
      assert mods == [mods[0]] + mods[1..];
    }
  }

  /** The spawn cache keeps the list order: it is the list with the other
      modules dropped, so it is never longer. */
  lemma {:induction false} SpawnListShorter(mods: seq<UParticleModule?>)
    ensures |SpawnList(mods)| <= |NonNull(mods)| <= |mods|
  {
    if mods != [] {
      SpawnListShorter(mods[1..]);
    }
  }

  /** An enabled module flagged both ways lands in both caches. */
  lemma BothCaches(m: UParticleModule)
    requires m.Enabled && m.SpawnFlag && m.UpdateFlag
    ensures SpawnList([m]) == [m] && UpdateList([m]) == [m]
  {
  }

  class UParticleLODLevel {
    var Modules: seq<UParticleModule?>
    var SpawnModules: seq<UParticleModule>
    var UpdateModules: seq<UParticleModule>
    /** `RequiredModule != nullptr`. */
    var HasRequiredModule: bool
    var SpawnModule: UParticleModule?

    /** A new level owns no modules. */
    constructor()
      ensures Modules == [] && SpawnModules == [] && UpdateModules == []
      ensures !HasRequiredModule && SpawnModule == null
    {
      Modules := [];
      SpawnModules := [];
      UpdateModules := [];
      HasRequiredModule := false;
      SpawnModule := null;
    }

    /** `CacheModuleInfo`: makes sure a required module exists, then rebuilds
        both caches from scratch; the module list is not touched. */
    method CacheModuleInfo()
      modifies this
      ensures HasRequiredModule
      ensures Modules == old(Modules) && SpawnModule == old(SpawnModule)
      ensures SpawnModules == SpawnList(Modules)
      ensures UpdateModules == UpdateList(Modules)
    {
      if !HasRequiredModule {
        HasRequiredModule := true;
      }
      SpawnModules := [];
      UpdateModules := [];
      var all := Modules;
      var i := 0;
      while i < |all|
        invariant 0 <= i <= |all| && Modules == all && SpawnModule == old(SpawnModule) && HasRequiredModule
        invariant SpawnModules == SpawnList(all[..i])
        invariant UpdateModules == UpdateList(all[..i])
      {
        var m := all[i];
        assert all[..i + 1] == all[..i] + [m];
        SpawnListAppend(all[..i], m);
        UpdateListAppend(all[..i], m);
        if m != null && m.Enabled {
          if m.SpawnFlag {
            SpawnModules := SpawnModules + [m];
          }
          if m.UpdateFlag {
            UpdateModules := UpdateModules + [m];
          }
        }
        i := i + 1;
      }
      assert all[..i] == all;
    }

    /** The spawn-module lookup of `Serialize` and `DuplicateSubObjects`:
        the first spawn-rate module in the list, or null. */
    method FindSpawnModule()
      modifies this
      ensures Modules == old(Modules) && HasRequiredModule == old(HasRequiredModule)
      ensures SpawnModules == old(SpawnModules) && UpdateModules == old(UpdateModules)
      ensures SpawnModule == null <==> FirstSpawnRate(Modules) == |Modules|
      ensures SpawnModule != null ==> SpawnModule == Modules[FirstSpawnRate(Modules)] && SpawnModule.IsSpawnRate
    {
      SpawnModule := null;
      var i := 0;
      while i < |Modules|
        invariant 0 <= i <= FirstSpawnRate(Modules) && SpawnModule == null
        invariant Modules == old(Modules) && HasRequiredModule == old(HasRequiredModule)
        invariant SpawnModules == old(SpawnModules) && UpdateModules == old(UpdateModules)
      {
        var m := Modules[i];
        if m != null && m.IsSpawnRate {
          SpawnModule := m;
          break;
        }
        i := i + 1;
      }
    }

    /** The loading half of `Serialize`: a stored required module replaces
        the current one; a stored module array replaces the module list with
        the entries whose class could be created (`null` entries are those
        whose class was not found); then the spawn module is looked up and
        the caches rebuilt. */
    method Load(requiredStored: bool, storedModules: Option<seq<UParticleModule?>>)
      modifies this
      ensures HasRequiredModule
      ensures storedModules.Some? ==> Modules == NonNull(storedModules.value)
      ensures storedModules.None? ==> Modules == old(Modules)
      ensures SpawnModule == null <==> FirstSpawnRate(Modules) == |Modules|
      ensures SpawnModule != null ==> SpawnModule == Modules[FirstSpawnRate(Modules)] && SpawnModule.IsSpawnRate
      ensures SpawnModules == SpawnList(Modules) && UpdateModules == UpdateList(Modules)
    {
      if requiredStored {
        HasRequiredModule := true;
      }
      if storedModules.Some? {
        var entries := storedModules.value;
        var loaded: seq<UParticleModule?> := [];
        var i := 0;
        while i < |entries|
          invariant 0 <= i <= |entries|
          invariant loaded == NonNull(entries[..i])
        {
          assert entries[..i + 1] == entries[..i] + [entries[i]];
          NonNullAppend(entries[..i], entries[i]);
          if entries[i] != null {
            loaded := loaded + [entries[i]];
          }
          i := i + 1;
        }
        assert entries[..i] == entries;
        Modules := loaded;
      }
      FindSpawnModule();
      CacheModuleInfo();
    }

    /** `DuplicateSubObjects` on the module list: every non-null module is
        replaced by a fresh copy with the same flags and type, null entries
        are dropped; then the spawn module is looked up among the copies and
        the caches rebuilt. */
    method DuplicateSubObjects()
      modifies this
      ensures HasRequiredModule
      ensures |Modules| == |NonNull(old(Modules))|
      ensures forall k :: 0 <= k < |Modules| ==> Modules[k] != null && fresh(Modules[k]) && Modules[k].SameAs(NonNull(old(Modules))[k])
      ensures SpawnModule == null <==> FirstSpawnRate(Modules) == |Modules|
      ensures SpawnModule != null ==> SpawnModule == Modules[FirstSpawnRate(Modules)] && SpawnModule.IsSpawnRate
      ensures SpawnModules == SpawnList(Modules) && UpdateModules == UpdateList(Modules)
    {
      var all := Modules;
      var source := NonNull(all);
      var copies: seq<UParticleModule?> := [];
      var i := 0;
      while i < |all|
        invariant 0 <= i <= |all|
        invariant |copies| == |NonNull(all[..i])|
        invariant forall k :: 0 <= k < |copies| ==> copies[k] != null && fresh(copies[k]) && copies[k].SameAs(NonNull(all[..i])[k])
      {
        assert all[..i + 1] == all[..i] + [all[i]];
        NonNullAppend(all[..i], all[i]);
        var m := all[i];
        if m != null {
          var copy := new UParticleModule(m.Enabled, m.SpawnFlag, m.UpdateFlag, m.IsSpawnRate);
          copies := copies + [copy];
        }
        i := i + 1;
      }
      assert all[..i] == all;
      Modules := copies;
      FindSpawnModule();
      CacheModuleInfo();
    }
  }

  /** Dropping null entries changes neither cache. */
  lemma {:induction false} NonNullKeepsCaches(mods: seq<UParticleModule?>)
    ensures SpawnList(NonNull(mods)) == SpawnList(mods)
    ensures UpdateList(NonNull(mods)) == UpdateList(mods)
  {
    if mods != [] {
      NonNullKeepsCaches(mods[1..]);
      if mods[0] != null {
        assert NonNull(mods) == [mods[0]] + NonNull(mods[1..]);
        assert ([mods[0] as UParticleModule?] + NonNull(mods[1..]))[1..] == NonNull(mods[1..]);
      }
    }
  }
}
