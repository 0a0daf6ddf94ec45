/** CPU and GPU skinning statistics
    (Mundi/Source/Runtime/Renderer/SkinningStats.h): a flat record of
    per-frame counters, times and byte counts, and the manager that resets
    and accumulates them. Counters are unsigned 32-bit and byte counts
    unsigned 64-bit, so additions wrap; times are real numbers. */
module SkinningStats {
  import opened FixedWidth

  datatype FSkinningStats = FSkinningStats(
    CPUSkinnedMeshCount: uint32,
    CPUBoneMatrixCalcTimeMS: real,
    CPUVertexSkinningTimeMS: real,
    CPUVertexBufferUploadTimeMS: real,
    CPUGPUDrawTimeMS: real,
    CPUTotalVertices: uint32,
    CPUTotalBones: uint32,
    CPUBufferUpdateCount: uint32,
    CPUVertexBufferMemory: uint64,
    GPUSkinnedMeshCount: uint32,
    GPUBoneMatrixCalcTimeMS: real,
    GPUBoneBufferUploadTimeMS: real,
    GPUDrawTimeMS: real,
    GPUTotalVertices: uint32,
    GPUTotalBones: uint32,
    GPUBufferUpdateCount: uint32,
    GPUBoneBufferMemory: uint64,
    TotalSkeletalMeshCount: uint32)

  /** The CPU-mode fields, in declaration order. */
  datatype CPUPart = CPUPart(MeshCount: uint32, BoneTime: real, SkinTime: real, UploadTime: real, DrawTime: real,
                             Vertices: uint32, Bones: uint32, Updates: uint32, Memory: uint64)

  /** The GPU-mode fields, in declaration order. */
  datatype GPUPart = GPUPart(MeshCount: uint32, BoneTime: real, UploadTime: real, DrawTime: real,
                             Vertices: uint32, Bones: uint32, Updates: uint32, Memory: uint64)

  function CPUOf(s: FSkinningStats): CPUPart
  {
    CPUPart(s.CPUSkinnedMeshCount, s.CPUBoneMatrixCalcTimeMS, s.CPUVertexSkinningTimeMS,
            s.CPUVertexBufferUploadTimeMS, s.CPUGPUDrawTimeMS, s.CPUTotalVertices, s.CPUTotalBones,
            s.CPUBufferUpdateCount, s.CPUVertexBufferMemory)
  }

  function GPUOf(s: FSkinningStats): GPUPart
  {
    GPUPart(s.GPUSkinnedMeshCount, s.GPUBoneMatrixCalcTimeMS, s.GPUBoneBufferUploadTimeMS, s.GPUDrawTimeMS,
            s.GPUTotalVertices, s.GPUTotalBones, s.GPUBufferUpdateCount, s.GPUBoneBufferMemory)
  }

  const ZeroCPU := CPUPart(0, 0.0, 0.0, 0.0, 0.0, 0, 0, 0, 0)
  const ZeroGPU := GPUPart(0, 0.0, 0.0, 0.0, 0, 0, 0, 0)

  /** `FSkinningStats::Reset`: every field becomes zero, which is also the
      value a fresh record starts with. */
  function Reset(): (r: FSkinningStats)
    ensures CPUOf(r) == ZeroCPU && GPUOf(r) == ZeroGPU && r.TotalSkeletalMeshCount == 0
  {
    FSkinningStats(0, 0.0, 0.0, 0.0, 0.0, 0, 0, 0, 0, 0, 0.0, 0.0, 0.0, 0, 0, 0, 0, 0)
  }

  function GetCPUTotalTimeMS(s: FSkinningStats): real
  {
    s.CPUBoneMatrixCalcTimeMS + s.CPUVertexSkinningTimeMS + s.CPUVertexBufferUploadTimeMS + s.CPUGPUDrawTimeMS
  }

  function GetGPUTotalTimeMS(s: FSkinningStats): real
  {
    s.GPUBoneMatrixCalcTimeMS + s.GPUBoneBufferUploadTimeMS + s.GPUDrawTimeMS
  }

  /** Mean CPU time per skinned mesh, 0 when no mesh was skinned. */
  function GetCPUAverageTimePerMeshMS(s: FSkinningStats): (r: real)
    ensures s.CPUSkinnedMeshCount == 0 ==> r == 0.0
    ensures s.CPUSkinnedMeshCount > 0 ==> r * (s.CPUSkinnedMeshCount as real) == GetCPUTotalTimeMS(s)
  {
    if s.CPUSkinnedMeshCount == 0 then 0.0 else GetCPUTotalTimeMS(s) / (s.CPUSkinnedMeshCount as real)
  }

  /** Mean GPU time per skinned mesh, 0 when no mesh was skinned. */
  function GetGPUAverageTimePerMeshMS(s: FSkinningStats): (r: real)
    ensures s.GPUSkinnedMeshCount == 0 ==> r == 0.0
    ensures s.GPUSkinnedMeshCount > 0 ==> r * (s.GPUSkinnedMeshCount as real) == GetGPUTotalTimeMS(s)
  {
    if s.GPUSkinnedMeshCount == 0 then 0.0 else GetGPUTotalTimeMS(s) / (s.GPUSkinnedMeshCount as real)
  }

  /** `UpdateTotalCounts`: the total is the active mode's mesh count, not
      the sum of both modes; nothing else changes. */
  function UpdateTotalCounts(s: FSkinningStats, isCPUMode: bool): (r: FSkinningStats)
    ensures r.TotalSkeletalMeshCount == if isCPUMode then s.CPUSkinnedMeshCount else s.GPUSkinnedMeshCount
    ensures CPUOf(r) == CPUOf(s) && GPUOf(r) == GPUOf(s)
  {
    s.(TotalSkeletalMeshCount := if isCPUMode then s.CPUSkinnedMeshCount else s.GPUSkinnedMeshCount)
  }

  /** The frame reset of one mode: that mode's fields and the total become
      zero, the other mode keeps its last values. */
  function ResetFrame(s: FSkinningStats, resetCPU: bool): FSkinningStats
  {
    if resetCPU then
      s.(CPUSkinnedMeshCount := 0, CPUBoneMatrixCalcTimeMS := 0.0, CPUVertexSkinningTimeMS := 0.0,
         CPUVertexBufferUploadTimeMS := 0.0, CPUGPUDrawTimeMS := 0.0, CPUTotalVertices := 0,
         CPUTotalBones := 0, CPUBufferUpdateCount := 0, CPUVertexBufferMemory := 0,
         TotalSkeletalMeshCount := 0)
    else
      s.(GPUSkinnedMeshCount := 0, GPUBoneMatrixCalcTimeMS := 0.0, GPUBoneBufferUploadTimeMS := 0.0,
         GPUDrawTimeMS := 0.0, GPUTotalVertices := 0, GPUTotalBones := 0, GPUBufferUpdateCount := 0,
         GPUBoneBufferMemory := 0, TotalSkeletalMeshCount := 0)
  }

  /** A CPU frame reset zeroes the CPU part and the total and keeps the GPU
      part; a GPU frame reset is the mirror case. */
  lemma ResetFrameParts(s: FSkinningStats, resetCPU: bool)
    ensures ResetFrame(s, resetCPU).TotalSkeletalMeshCount == 0
    ensures resetCPU ==> CPUOf(ResetFrame(s, resetCPU)) == ZeroCPU && GPUOf(ResetFrame(s, resetCPU)) == GPUOf(s)
    ensures !resetCPU ==> GPUOf(ResetFrame(s, resetCPU)) == ZeroGPU && CPUOf(ResetFrame(s, resetCPU)) == CPUOf(s)
  {
  }

  /** Resetting both modes is a full `Reset`, in either order. */
  lemma ResetBothIsReset(s: FSkinningStats, firstCPU: bool)
    ensures ResetFrame(ResetFrame(s, firstCPU), !firstCPU) == Reset()
  {
  }

  /** One CPU-skinned mesh. */
  function AddCPUMeshTo(s: FSkinningStats, vertexCount: uint32, boneCount: uint32, bufferSize: uint64): FSkinningStats
  {
    s.(CPUSkinnedMeshCount := Add32(s.CPUSkinnedMeshCount, 1),
       CPUTotalVertices := Add32(s.CPUTotalVertices, vertexCount),
       CPUTotalBones := Add32(s.CPUTotalBones, boneCount),
       CPUVertexBufferMemory := Add64(s.CPUVertexBufferMemory, bufferSize))
  }

  /** One GPU-skinned mesh. */
  function AddGPUMeshTo(s: FSkinningStats, vertexCount: uint32, boneCount: uint32, bufferSize: uint64): FSkinningStats
  {
    s.(GPUSkinnedMeshCount := Add32(s.GPUSkinnedMeshCount, 1),
       GPUTotalVertices := Add32(s.GPUTotalVertices, vertexCount),
       GPUTotalBones := Add32(s.GPUTotalBones, boneCount),
       GPUBoneBufferMemory := Add64(s.GPUBoneBufferMemory, bufferSize))
  }

  /** Adding a CPU mesh counts it, touches no GPU field and leaves the
      total alone until `UpdateTotalCounts`; then a CPU-mode total is the
      new CPU count. */
  lemma AddCPUMeshCounts(s: FSkinningStats, v: uint32, b: uint32, size: uint64)
    requires s.CPUSkinnedMeshCount + 1 < U32
    ensures AddCPUMeshTo(s, v, b, size).CPUSkinnedMeshCount == s.CPUSkinnedMeshCount + 1
    ensures GPUOf(AddCPUMeshTo(s, v, b, size)) == GPUOf(s)
    ensures AddCPUMeshTo(s, v, b, size).TotalSkeletalMeshCount == s.TotalSkeletalMeshCount
    ensures UpdateTotalCounts(AddCPUMeshTo(s, v, b, size), true).TotalSkeletalMeshCount == s.CPUSkinnedMeshCount + 1
  {
  }

  /** Adding a GPU mesh counts it and touches no CPU field. */
  lemma AddGPUMeshCounts(s: FSkinningStats, v: uint32, b: uint32, size: uint64)
    requires s.GPUSkinnedMeshCount + 1 < U32
    ensures AddGPUMeshTo(s, v, b, size).GPUSkinnedMeshCount == s.GPUSkinnedMeshCount + 1
    ensures CPUOf(AddGPUMeshTo(s, v, b, size)) == CPUOf(s)
    ensures UpdateTotalCounts(AddGPUMeshTo(s, v, b, size), false).TotalSkeletalMeshCount == s.GPUSkinnedMeshCount + 1
  {
  }

  /** The mesh counter wraps to 0 after 2^32 - 1 meshes. */
  lemma MeshCountWraps(s: FSkinningStats, v: uint32, b: uint32, size: uint64)
    requires s.CPUSkinnedMeshCount == U32 - 1
    ensures AddCPUMeshTo(s, v, b, size).CPUSkinnedMeshCount == 0
  {
  }

  /** The frame statistics shared by the renderer. */
  class FSkinningStatManager {
    var CurrentStats: FSkinningStats

    constructor ()
      ensures CurrentStats == Reset()
    {
      CurrentStats := Reset();
    }

    method ResetFrameStats(resetCPU: bool)
      modifies this
      ensures CurrentStats == ResetFrame(old(CurrentStats), resetCPU)
    {
      if resetCPU {
        CurrentStats := CurrentStats.(CPUSkinnedMeshCount := 0, CPUBoneMatrixCalcTimeMS := 0.0,
          CPUVertexSkinningTimeMS := 0.0, CPUVertexBufferUploadTimeMS := 0.0, CPUGPUDrawTimeMS := 0.0,
          CPUTotalVertices := 0, CPUTotalBones := 0, CPUBufferUpdateCount := 0, CPUVertexBufferMemory := 0);
      } else {
        CurrentStats := CurrentStats.(GPUSkinnedMeshCount := 0, GPUBoneMatrixCalcTimeMS := 0.0,
          GPUBoneBufferUploadTimeMS := 0.0, GPUDrawTimeMS := 0.0, GPUTotalVertices := 0,
          GPUTotalBones := 0, GPUBufferUpdateCount := 0, GPUBoneBufferMemory := 0);
      }
      CurrentStats := CurrentStats.(TotalSkeletalMeshCount := 0);
    }

    method GetStats() returns (r: FSkinningStats)
      ensures r == CurrentStats
    {
      r := CurrentStats;
    }

    method AddCPUMesh(vertexCount: uint32, boneCount: uint32, vertexBufferSize: uint64)
      modifies this
      ensures CurrentStats == AddCPUMeshTo(old(CurrentStats), vertexCount, boneCount, vertexBufferSize)
    {
      CurrentStats := CurrentStats.(CPUSkinnedMeshCount := Add32(CurrentStats.CPUSkinnedMeshCount, 1));
      CurrentStats := CurrentStats.(CPUTotalVertices := Add32(CurrentStats.CPUTotalVertices, vertexCount));
      CurrentStats := CurrentStats.(CPUTotalBones := Add32(CurrentStats.CPUTotalBones, boneCount));
      CurrentStats := CurrentStats.(CPUVertexBufferMemory := Add64(CurrentStats.CPUVertexBufferMemory, vertexBufferSize));
    }

    method AddCPUBoneMatrixCalcTime(timeMS: real)
      modifies this
      ensures CurrentStats == old(CurrentStats).(CPUBoneMatrixCalcTimeMS := old(CurrentStats).CPUBoneMatrixCalcTimeMS + timeMS)
    {
      CurrentStats := CurrentStats.(CPUBoneMatrixCalcTimeMS := CurrentStats.CPUBoneMatrixCalcTimeMS + timeMS);
    }

    method AddCPUVertexSkinningTime(timeMS: real)
      modifies this
      ensures CurrentStats == old(CurrentStats).(CPUVertexSkinningTimeMS := old(CurrentStats).CPUVertexSkinningTimeMS + timeMS)
    {
      CurrentStats := CurrentStats.(CPUVertexSkinningTimeMS := CurrentStats.CPUVertexSkinningTimeMS + timeMS);
    }

    /** An upload adds its time and counts one more buffer update. */
    method AddCPUBufferUploadTime(timeMS: real)
      modifies this
      ensures CurrentStats == old(CurrentStats).(
        CPUVertexBufferUploadTimeMS := old(CurrentStats).CPUVertexBufferUploadTimeMS + timeMS,
        CPUBufferUpdateCount := Add32(old(CurrentStats).CPUBufferUpdateCount, 1))
      ensures GPUOf(CurrentStats) == GPUOf(old(CurrentStats))
    {
      CurrentStats := CurrentStats.(CPUVertexBufferUploadTimeMS := CurrentStats.CPUVertexBufferUploadTimeMS + timeMS);
      CurrentStats := CurrentStats.(CPUBufferUpdateCount := Add32(CurrentStats.CPUBufferUpdateCount, 1));
    }

    method AddCPUGPUDrawTime(timeMS: real)
      modifies this
      ensures CurrentStats == old(CurrentStats).(CPUGPUDrawTimeMS := old(CurrentStats).CPUGPUDrawTimeMS + timeMS)
    {
      CurrentStats := CurrentStats.(CPUGPUDrawTimeMS := CurrentStats.CPUGPUDrawTimeMS + timeMS);
    }

    method AddGPUMesh(vertexCount: uint32, boneCount: uint32, boneBufferSize: uint64)
      modifies this
      ensures CurrentStats == AddGPUMeshTo(old(CurrentStats), vertexCount, boneCount, boneBufferSize)
    {
      CurrentStats := CurrentStats.(GPUSkinnedMeshCount := Add32(CurrentStats.GPUSkinnedMeshCount, 1));
      CurrentStats := CurrentStats.(GPUTotalVertices := Add32(CurrentStats.GPUTotalVertices, vertexCount));
      CurrentStats := CurrentStats.(GPUTotalBones := Add32(CurrentStats.GPUTotalBones, boneCount));
      CurrentStats := CurrentStats.(GPUBoneBufferMemory := Add64(CurrentStats.GPUBoneBufferMemory, boneBufferSize));
    }

    method AddGPUBoneMatrixCalcTime(timeMS: real)
      modifies this
      ensures CurrentStats == old(CurrentStats).(GPUBoneMatrixCalcTimeMS := old(CurrentStats).GPUBoneMatrixCalcTimeMS + timeMS)
    {
      CurrentStats := CurrentStats.(GPUBoneMatrixCalcTimeMS := CurrentStats.GPUBoneMatrixCalcTimeMS + timeMS);
    }

    /** An upload adds its time and counts one more bone-buffer update. */
    method AddGPUBoneBufferUploadTime(timeMS: real)
      modifies this
      ensures CurrentStats == old(CurrentStats).(
        GPUBoneBufferUploadTimeMS := old(CurrentStats).GPUBoneBufferUploadTimeMS + timeMS,
        GPUBufferUpdateCount := Add32(old(CurrentStats).GPUBufferUpdateCount, 1))
      ensures CPUOf(CurrentStats) == CPUOf(old(CurrentStats))
    {
      CurrentStats := CurrentStats.(GPUBoneBufferUploadTimeMS := CurrentStats.GPUBoneBufferUploadTimeMS + timeMS);
      CurrentStats := CurrentStats.(GPUBufferUpdateCount := Add32(CurrentStats.GPUBufferUpdateCount, 1));
    }

    method AddGPUDrawTime(timeMS: real)
      modifies this
      ensures CurrentStats == old(CurrentStats).(GPUDrawTimeMS := old(CurrentStats).GPUDrawTimeMS + timeMS)
    {
      CurrentStats := CurrentStats.(GPUDrawTimeMS := CurrentStats.GPUDrawTimeMS + timeMS);
    }
  }
}
