/** The particle data container (ParticleDefinitions.cpp): one byte block
    holding the particle data followed by the `uint16` particle indices. The
    index pointer is modelled as its byte offset into the block. */
module ParticleDefinitions {
  import opened Text

  /** `sizeof(uint16)`. */
  const INDEX_SIZE: int := 2

  /** The block size `Alloc` computes: the data bytes, then two bytes per
      index. */
  function BlockSizeFor(dataBytes: int, indexShorts: int): (r: int)
    ensures dataBytes >= 0 && indexShorts >= 0 ==> r >= dataBytes
    ensures r - dataBytes == INDEX_SIZE * indexShorts
  {
    dataBytes + indexShorts * INDEX_SIZE
  }

  class FParticleDataContainer {
    var MemBlockSize: int
    var ParticleDataNumBytes: int
    var ParticleIndicesNumShorts: int
    var ParticleData: array?<bv8>
    /** Where `ParticleIndices` points into the block; `None` is null. */
    var IndicesOffset: Option<int>

    /** A block exists exactly when the indices pointer is set; it has the
        recorded size and the indices start right after the data. */
    ghost predicate Valid()
      reads this
    {
      (ParticleData == null <==> IndicesOffset.None?) &&
      (ParticleData != null ==>
        ParticleData.Length == MemBlockSize && MemBlockSize > 0 &&
        IndicesOffset == Some(ParticleDataNumBytes))
    }

    /** An empty container: no block, all sizes 0. */
    constructor()
      ensures Valid() && Empty()
    {
      MemBlockSize := 0;
      ParticleDataNumBytes := 0;
      ParticleIndicesNumShorts := 0;
      ParticleData := null;
      IndicesOffset := None;
    }

    /** No block and all three sizes 0. */
    predicate Empty()
      reads this
    {
      ParticleData == null && IndicesOffset.None? &&
      MemBlockSize == 0 && ParticleDataNumBytes == 0 && ParticleIndicesNumShorts == 0
    }

    /** `Free`: releases the block, nulls both pointers and zeroes the
        sizes. */
    method Free()
      requires Valid()
      modifies this
      ensures Valid() && Empty()
    {
      if ParticleData != null {
        ParticleData := null;
        IndicesOffset := None;
      }
      MemBlockSize := 0;
      ParticleDataNumBytes := 0;
      ParticleIndicesNumShorts := 0;
    }

    /** `Alloc`: frees the old block, records the sizes and, when the block
        size is positive, allocates a zero-filled block whose indices start
        after the data bytes; otherwise no block. */
    method Alloc(dataBytes: int, indexShorts: int)
      requires Valid()
      modifies this
      ensures Valid()
      ensures ParticleDataNumBytes == dataBytes && ParticleIndicesNumShorts == indexShorts
      ensures MemBlockSize == BlockSizeFor(dataBytes, indexShorts)
      ensures MemBlockSize <= 0 ==> ParticleData == null && IndicesOffset.None?
      ensures MemBlockSize > 0 ==>
        ParticleData != null && fresh(ParticleData) && IndicesOffset == Some(dataBytes) &&
        forall k :: 0 <= k < ParticleData.Length ==> ParticleData[k] == 0
    {
      Free();
      ParticleDataNumBytes := dataBytes;
      ParticleIndicesNumShorts := indexShorts;
      MemBlockSize := ParticleDataNumBytes + ParticleIndicesNumShorts * INDEX_SIZE;
      if MemBlockSize > 0 {
        ParticleData := new bv8[MemBlockSize](_ => 0);
        IndicesOffset := Some(ParticleDataNumBytes);
      }
    }
  }
}
