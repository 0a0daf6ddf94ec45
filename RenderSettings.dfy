/** Per-world render settings (Mundi/Source/Runtime/Renderer/RenderSettings.h):
    the view mode and the show-flag set, with the flag operators of
    TL2/Enums.h. */
module RenderSettings {
  import opened Enums

  /** The view mode a world renders with. Only the default,
      `VMI_Lit_Phong`, is named; every other mode is told apart by its code. */
  datatype ViewMode = VMI_Lit_Phong | OtherViewMode(Code: nat)

  /** `ToggleShowFlag`: clear the flag when any of its bits is set,
      otherwise set it. */
  function Toggle(flags: EEngineShowFlags, flag: EEngineShowFlags): EEngineShowFlags
  {
    if HasShowFlag(flags, flag) then Disable(flags, flag) else Enable(flags, flag)
  }

  /** A toggle changes only the flag's bits: it clears all of them when
      any was set and sets all of them otherwise. */
  lemma ToggleFlips(flags: EEngineShowFlags, flag: EEngineShowFlags)
    ensures Toggle(flags, flag) - flag == flags - flag
    ensures HasShowFlag(flags, flag) ==> Toggle(flags, flag) * flag == NoShowFlags
    ensures !HasShowFlag(flags, flag) ==> flag <= Toggle(flags, flag)
  {
  }

  /** Toggling twice restores the flags when the flag is wholly set or
      wholly clear in them, which is always the case for a one-bit flag. */
  lemma ToggleTwice(flags: EEngineShowFlags, flag: EEngineShowFlags)
    requires flags * flag == NoShowFlags || flag <= flags
    ensures Toggle(Toggle(flags, flag), flag) == flags
  {
    var once := Toggle(flags, flag);
    if flags * flag == NoShowFlags {
      if flag != NoShowFlags {
        EnableThenHas(flags, flag);
        var twice := Disable(once, flag);
        assert twice == twice - flag;
        assert once == flags + flag;
        AddThenRemove(flags, flag);
      }
    } else {
      DisableThenHasNot(flags, flag);
    }
  }

  /** Adding bits that were clear and removing them again restores the set. */
  lemma AddThenRemove(flags: EEngineShowFlags, flag: EEngineShowFlags)
    requires flags * flag == NoShowFlags
    ensures (flags + flag) - flag == flags
  {
    forall k | k in flags
      ensures k !in flag
    {
      assert k !in flags * flag;
    }
  }

  /** A one-bit flag is wholly set or wholly clear in any flag set. */
  lemma SingleBitAllOrNothing(flags: EEngineShowFlags, k: BitIndex)
    ensures flags * Bit(k) == NoShowFlags || Bit(k) <= flags
  {
  }

  /** With a flag that is only partly set, two toggles do not restore the
      flags: toggling `SF_Primitives | SF_Grid` on `SF_Primitives` clears
      both and then sets both. */
  lemma PartialToggleTwice()
    ensures Toggle(Toggle(SF_Primitives, SF_Primitives + SF_Grid), SF_Primitives + SF_Grid) == SF_Primitives + SF_Grid
    ensures SF_Primitives + SF_Grid != SF_Primitives
  {
    assert 0 in SF_Primitives * (SF_Primitives + SF_Grid);
    assert 5 !in SF_Primitives;
  }

  class URenderSettings {
    var ShowFlags: EEngineShowFlags
    var ViewModeIndex: ViewMode

    constructor ()
      ensures ShowFlags == SF_DefaultEnabled && ViewModeIndex == VMI_Lit_Phong
    {
      ShowFlags := SF_DefaultEnabled;
      ViewModeIndex := VMI_Lit_Phong;
    }

    method SetViewModeIndex(mode: ViewMode)
      modifies this
      ensures ViewModeIndex == mode && ShowFlags == old(ShowFlags)
    {
      ViewModeIndex := mode;
    }

    method GetViewModeIndex() returns (r: ViewMode)
      ensures r == ViewModeIndex
    {
      r := ViewModeIndex;
    }

    method GetShowFlags() returns (r: EEngineShowFlags)
      ensures r == ShowFlags
    {
      r := ShowFlags;
    }

    method SetShowFlags(flags: EEngineShowFlags)
      modifies this
      ensures ShowFlags == flags && ViewModeIndex == old(ViewModeIndex)
    {
      ShowFlags := flags;
    }

    /** Afterwards every bit of the flag is set and no other bit changed
        (`Enums.Enable`, `Enums.EnableThenHas`). */
    method EnableShowFlag(flag: EEngineShowFlags)
      modifies this
      ensures ShowFlags == Enable(old(ShowFlags), flag) && ViewModeIndex == old(ViewModeIndex)
    {
      ShowFlags := ShowFlags + flag;
    }

    /** Afterwards the flag is reported as disabled and no other bit
        changed (`Enums.Disable`, `Enums.DisableThenHasNot`). */
    method DisableShowFlag(flag: EEngineShowFlags)
      modifies this
      ensures ShowFlags == Disable(old(ShowFlags), flag) && ViewModeIndex == old(ViewModeIndex)
    {
      ShowFlags := ShowFlags * Complement(flag);
    }

    method ToggleShowFlag(flag: EEngineShowFlags)
      modifies this
      ensures ShowFlags == Toggle(old(ShowFlags), flag) && ViewModeIndex == old(ViewModeIndex)
    {
      ShowFlags := if HasShowFlag(ShowFlags, flag) then ShowFlags * Complement(flag) else ShowFlags + flag;
    }

    method IsShowFlagEnabled(flag: EEngineShowFlags) returns (r: bool)
      ensures r == HasShowFlag(ShowFlags, flag)
    {
      r := HasShowFlag(ShowFlags, flag);
    }
  }
}
