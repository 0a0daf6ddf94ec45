/** Ragdoll statistics (Mundi/Source/Runtime/Engine/Physics/RagdollStats.h):
    structure counts, timings and memory of the active ragdolls, and the
    manager that resets and accumulates them. Counts are signed 32-bit in
    the source (modelled as unbounded integers); byte counts are unsigned
    64-bit and wrap. */
module RagdollStats {
  import opened FixedWidth

  datatype FRagdollStats = FRagdollStats(
    ActiveRagdollCount: int,
    TotalBodyCount: int,
    TotalConstraintCount: int,
    SphereShapeCount: int,
    BoxShapeCount: int,
    CapsuleShapeCount: int,
    SyncBodiesToBonesTimeMS: real,
    TotalRagdollTimeMS: real,
    BodiesMemoryBytes: uint64,
    ConstraintsMemoryBytes: uint64)

  /** `FRagdollStats::Reset` and the initial value: every field zero. */
  function Reset(): (r: FRagdollStats)
    ensures r.ActiveRagdollCount == r.TotalBodyCount == r.TotalConstraintCount == 0
    ensures r.SyncBodiesToBonesTimeMS == r.TotalRagdollTimeMS == 0.0
  {
    FRagdollStats(0, 0, 0, 0, 0, 0, 0.0, 0.0, 0, 0)
  }

  function GetTotalShapeCount(s: FRagdollStats): int
  {
    s.SphereShapeCount + s.BoxShapeCount + s.CapsuleShapeCount
  }

  function GetTotalMemoryBytes(s: FRagdollStats): uint64
  {
    Add64(s.BodiesMemoryBytes, s.ConstraintsMemoryBytes)
  }

  /** `GetTotalMemoryKB`: the byte total in kibibytes. */
  function GetTotalMemoryKB(s: FRagdollStats): (r: real)
    ensures r * 1024.0 == GetTotalMemoryBytes(s) as real
  {
    (GetTotalMemoryBytes(s) as real) / 1024.0
  }

  /** The time spent in ragdoll work other than syncing bodies to bones. */
  function OtherTime(s: FRagdollStats): real
  {
    s.TotalRagdollTimeMS - s.SyncBodiesToBonesTimeMS
  }

  /** After a reset every derived total is zero as well. */
  lemma ResetClearsTotals()
    ensures GetTotalShapeCount(Reset()) == 0 && GetTotalMemoryBytes(Reset()) == 0
  {
    var r := Reset();
    assert r.BodiesMemoryBytes == 0 && r.ConstraintsMemoryBytes == 0;
    assert GetTotalMemoryBytes(r) == 0;
  }

  class FRagdollStatManager {
    var CurrentStats: FRagdollStats

    constructor ()
      ensures CurrentStats == Reset()
    {
      CurrentStats := Reset();
    }

    method ResetFrameStats()
      modifies this
      ensures CurrentStats == Reset()
    {
      CurrentStats := Reset();
    }

    method UpdateStats(stats: FRagdollStats)
      modifies this
      ensures CurrentStats == stats
    {
      CurrentStats := stats;
    }

    method GetStats() returns (r: FRagdollStats)
      ensures r == CurrentStats
    {
      r := CurrentStats;
    }

    /** One more ragdoll with its bodies and constraints; shapes, times and
        memory are untouched. */
    method AddRagdoll(bodyCount: int, constraintCount: int)
      modifies this
      ensures CurrentStats == old(CurrentStats).(
        ActiveRagdollCount := old(CurrentStats).ActiveRagdollCount + 1,
        TotalBodyCount := old(CurrentStats).TotalBodyCount + bodyCount,
        TotalConstraintCount := old(CurrentStats).TotalConstraintCount + constraintCount)
      ensures GetTotalShapeCount(CurrentStats) == GetTotalShapeCount(old(CurrentStats))
      ensures GetTotalMemoryBytes(CurrentStats) == GetTotalMemoryBytes(old(CurrentStats))
    {
      CurrentStats := CurrentStats.(ActiveRagdollCount := CurrentStats.ActiveRagdollCount + 1);
      CurrentStats := CurrentStats.(TotalBodyCount := CurrentStats.TotalBodyCount + bodyCount);
      CurrentStats := CurrentStats.(TotalConstraintCount := CurrentStats.TotalConstraintCount + constraintCount);
    }

    /** Shape counts grow by the given amounts, so the shape total grows by
        their sum. */
    method AddShapeCounts(spheres: int, boxes: int, capsules: int)
      modifies this
      ensures CurrentStats == old(CurrentStats).(
        SphereShapeCount := old(CurrentStats).SphereShapeCount + spheres,
        BoxShapeCount := old(CurrentStats).BoxShapeCount + boxes,
        CapsuleShapeCount := old(CurrentStats).CapsuleShapeCount + capsules)
      ensures GetTotalShapeCount(CurrentStats) == GetTotalShapeCount(old(CurrentStats)) + spheres + boxes + capsules
    {
      CurrentStats := CurrentStats.(SphereShapeCount := CurrentStats.SphereShapeCount + spheres);
      CurrentStats := CurrentStats.(BoxShapeCount := CurrentStats.BoxShapeCount + boxes);
      CurrentStats := CurrentStats.(CapsuleShapeCount := CurrentStats.CapsuleShapeCount + capsules);
    }

    /** Sync time counts towards both the sync time and the total time, so
        the time spent elsewhere is unchanged. */
    method AddSyncTime(timeMS: real)
      modifies this
      ensures CurrentStats == old(CurrentStats).(
        SyncBodiesToBonesTimeMS := old(CurrentStats).SyncBodiesToBonesTimeMS + timeMS,
        TotalRagdollTimeMS := old(CurrentStats).TotalRagdollTimeMS + timeMS)
      ensures OtherTime(CurrentStats) == OtherTime(old(CurrentStats))
    {
      CurrentStats := CurrentStats.(SyncBodiesToBonesTimeMS := CurrentStats.SyncBodiesToBonesTimeMS + timeMS);
      CurrentStats := CurrentStats.(TotalRagdollTimeMS := CurrentStats.TotalRagdollTimeMS + timeMS);
    }

    /** Memory grows by the given byte counts, wrapping at 2^64. */
    method AddMemory(bodiesBytes: uint64, constraintsBytes: uint64)
      modifies this
      ensures CurrentStats == old(CurrentStats).(
        BodiesMemoryBytes := Add64(old(CurrentStats).BodiesMemoryBytes, bodiesBytes),
        ConstraintsMemoryBytes := Add64(old(CurrentStats).ConstraintsMemoryBytes, constraintsBytes))
      ensures old(CurrentStats).BodiesMemoryBytes + old(CurrentStats).ConstraintsMemoryBytes + bodiesBytes + constraintsBytes < U64 ==>
        GetTotalMemoryBytes(CurrentStats) == GetTotalMemoryBytes(old(CurrentStats)) + bodiesBytes + constraintsBytes
    {
      CurrentStats := CurrentStats.(BodiesMemoryBytes := Add64(CurrentStats.BodiesMemoryBytes, bodiesBytes));
      CurrentStats := CurrentStats.(ConstraintsMemoryBytes := Add64(CurrentStats.ConstraintsMemoryBytes, constraintsBytes));
    }
  }
}
