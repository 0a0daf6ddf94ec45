/** The particle emitter instance's buffer bookkeeping
    (ParticleEmitterInstance.cpp). Particles sit in fixed-size slots of one
    byte buffer, and the whole index array is a permutation of the slots.
    Every reader (`GetParticleAtIndex`, the update loop, the renderer's
    snapshot) reaches live particle `k` through slot `ParticleIndices[k]`,
    for `k` below `ActiveParticles`. The spawn loop as written does not: it
    writes the new particle into raw slot `ActiveParticles`, which after a
    kill can be a live particle's slot (`KillThenSpawnOverwrites`). The
    corrected spawn writes into slot `ParticleIndices[ActiveParticles]`,
    which no live particle holds. The particle payloads (positions,
    velocities, colours) are floating point and not part of this model; a
    slot is identified by its number. */
module ParticleEmitter {
  import opened Text

  /** 2^32: `ParticleCounter` is a `uint32`. */
  const COUNTER_MODULUS: int := 0x1_0000_0000
  /** 2^16: a particle index is stored as a `uint16`. */
  const INDEX_MODULUS: int := 0x1_0000
  /** `sizeof(uint16)`: the bytes of one stored index. */
  const INDEX_BYTES: int := 2

  /** Every entry names a slot below the length, and no slot twice. */
  ghost predicate IsPermutation(s: seq<int>)
  {
    (forall i :: 0 <= i < |s| ==> 0 <= s[i] < |s|) &&
    (forall i, j :: 0 <= i < j < |s| ==> s[i] != s[j])
  }

  /** The index array `Resize` builds: slot `i` at position `i`. */
  function Identity(n: nat): (r: seq<int>)
    ensures |r| == n && IsPermutation(r)
  {
    seq(n, i => i)
  }

  /** The index table `Resize` stores as written: each position `i` is
      written into a `uint16`, so it keeps `i` modulo 2^16. */
  function StoredIndices(n: nat): (r: seq<int>)
    ensures |r| == n
    ensures forall i :: 0 <= i < n ==> 0 <= r[i] < INDEX_MODULUS
  {
    seq(n, i => i % INDEX_MODULUS)
  }

  /** Up to 2^16 slots the stored table is the identity; the buffer the
      spawn loop reaches after ten doublings of 100 (102400 slots) stores
      slot 0 twice, so its table is no permutation. */
  lemma StoredIndicesWrap(n: nat)
    ensures n <= INDEX_MODULUS ==> StoredIndices(n) == Identity(n)
    ensures n > INDEX_MODULUS ==>
      StoredIndices(n)[INDEX_MODULUS] == StoredIndices(n)[0] && !IsPermutation(StoredIndices(n))
    ensures 100 * 1024 > INDEX_MODULUS
  {
    if n > INDEX_MODULUS {
      var r := StoredIndices(n);
      assert r[0] == 0;
      assert r[INDEX_MODULUS] == INDEX_MODULUS % INDEX_MODULUS == 0;
    }
  }

  /** Exchanging two positions keeps a permutation. */
  lemma SwapKeepsPermutation(s: seq<int>, i: int, j: int)
    requires IsPermutation(s) && 0 <= i < |s| && 0 <= j < |s|
    ensures IsPermutation(s[i := s[j]][j := s[i]])
  {
    var t := s[i := s[j]][j := s[i]];
    forall a, b | 0 <= a < b < |t|
      ensures t[a] != t[b]
    {
      var a' := if a == i then j else if a == j then i else a;
      var b' := if b == i then j else if b == j then i else b;
      assert t[a] == s[a'] && t[b] == s[b'];
      if a' < b' {
        assert s[a'] != s[b'];
      } else {
        assert s[b'] != s[a'];
      }
    }
  }

  /** One step of the spawn loop on (active, max): when the buffer is full it
      is resized to twice its size, which empties it, and then the new particle
      takes the next position. A resize to the current size does nothing. */
  function SpawnStep(active: int, max: int): (int, int)
  {
    if active >= max then
      if max * 2 == max then (active + 1, max) else (1, max * 2)
    else (active + 1, max)
  }

  /** The (active, max) pair after `k` spawn steps. */
  function SpawnN(active: int, max: int, k: nat): (int, int)
  {
    if k == 0 then (active, max)
    else var p := SpawnN(active, max, k - 1); SpawnStep(p.0, p.1)
  }

  /** While the buffer has room, spawning `k` particles adds exactly `k` to the
      live count and keeps the buffer size. */
  lemma {:induction false} SpawnWithoutGrowth(active: int, max: int, k: nat)
    requires 0 <= active && active + k <= max
    ensures SpawnN(active, max, k) == (active + k, max)
  {
    if k > 0 {
      SpawnWithoutGrowth(active, max, k - 1);
    }
  }

  /** With a positive buffer size the live count never exceeds it. */
  lemma {:induction false} SpawnStaysInBuffer(active: int, max: int, k: nat)
    requires 0 <= active <= max && max > 0
    ensures 1 <= SpawnN(active, max, k).0 || k == 0
    ensures 0 <= SpawnN(active, max, k).0 <= SpawnN(active, max, k).1
    ensures max <= SpawnN(active, max, k).1
  {
    if k > 0 {
      SpawnStaysInBuffer(active, max, k - 1);
    }
  }

  /** The `uint32` counter after `k` increments. */
  function CounterAfter(counter: int, k: nat): (r: int)
    ensures 0 <= r < COUNTER_MODULUS
  {
    (counter + k) % COUNTER_MODULUS
  }

  /** The snapshot `GetDynamicData` hands to the renderer: the live count, the
      stride, the byte sizes of its block and the copied index entries. */
  datatype DynamicData = DynamicData(
    ActiveParticleCount: int,
    ParticleStride: int,
    ParticleDataNumBytes: int,
    ParticleIndicesNumShorts: int,
    MemBlockSize: int,
    Indices: seq<int>)

  /** The renderer reads particle `k` of a snapshot at byte offset
      `Indices[k] * ParticleStride` of the copied data; the read stays inside
      the copied data. */
  ghost predicate ReadsInsideData(d: DynamicData)
  {
    forall k :: 0 <= k < |d.Indices| ==>
      0 <= d.Indices[k] && (d.Indices[k] + 1) * d.ParticleStride <= d.ParticleDataNumBytes
  }

  class FParticleEmitterInstance {
    /** `CurrentLODLevel != nullptr`. */
    var HasLODLevel: bool
    var ParticleStride: nat
    var MaxActiveParticles: int
    var ActiveParticles: int
    var ParticleCounter: int
    var ParticleIndices: array<int>
    /** The size of the byte block `Resize` allocated (0 when none). */
    var BlockSize: int

    ghost predicate Valid()
      reads this, ParticleIndices
    {
      ParticleIndices.Length == (if MaxActiveParticles > 0 then MaxActiveParticles else 0) &&
      0 <= ActiveParticles <= ParticleIndices.Length &&
      0 <= ParticleCounter < COUNTER_MODULUS &&
      IsPermutation(ParticleIndices[..])
    }

    /** A fresh instance has no LOD level and no buffer. */
    constructor()
      ensures Valid() && !HasLODLevel
      ensures MaxActiveParticles == 0 && ActiveParticles == 0 && ParticleCounter == 0
      ensures BlockSize == 0 && ParticleStride == 0
    {
      HasLODLevel := false;
      ParticleStride := 0;
      MaxActiveParticles := 0;
      ActiveParticles := 0;
      ParticleCounter := 0;
      ParticleIndices := new int[0];
      BlockSize := 0;
    }

    /** `Init`: without a template nothing but the template pointer changes,
        so an earlier LOD level stays current. With one, the LOD level is the
        template's level 0; when that exists, the stride is the template's
        particle size and the buffer is sized for 100 particles. */
    method Init(templatePresent: bool, lodLevelFound: bool, particleSize: nat)
      requires Valid()
      modifies this
      ensures Valid()
      ensures !templatePresent ==>
        HasLODLevel == old(HasLODLevel) && ParticleStride == old(ParticleStride) &&
        MaxActiveParticles == old(MaxActiveParticles) && ActiveParticles == old(ActiveParticles) &&
        ParticleIndices == old(ParticleIndices) && ParticleIndices[..] == old(ParticleIndices[..]) &&
        BlockSize == old(BlockSize)
      ensures templatePresent ==> HasLODLevel == lodLevelFound
      ensures templatePresent && !lodLevelFound ==>
        ParticleStride == old(ParticleStride) && ParticleIndices == old(ParticleIndices) &&
        ParticleIndices[..] == old(ParticleIndices[..]) && BlockSize == old(BlockSize)
      ensures templatePresent && lodLevelFound ==> ParticleStride == particleSize && MaxActiveParticles == 100
      ensures templatePresent && lodLevelFound && old(MaxActiveParticles) != 100 ==>
        fresh(ParticleIndices) && ActiveParticles == 0 && ParticleIndices[..] == Identity(100) &&
        BlockSize == 100 * particleSize + 100 * INDEX_BYTES
      ensures templatePresent && lodLevelFound && old(MaxActiveParticles) == 100 ==>
        ActiveParticles == old(ActiveParticles) && ParticleIndices == old(ParticleIndices) &&
        ParticleIndices[..] == old(ParticleIndices[..]) && BlockSize == old(BlockSize)
      ensures !(templatePresent && lodLevelFound) ==>
        MaxActiveParticles == old(MaxActiveParticles) && ActiveParticles == old(ActiveParticles)
      ensures ParticleCounter == old(ParticleCounter)
    {
      if templatePresent {
        HasLODLevel := lodLevelFound;
        if lodLevelFound {
          ParticleStride := particleSize;
          Resize(100);
        }
      }
    }

    /** `Resize`: the current size is left alone. Otherwise the buffer is
        reallocated for the new size (data, then one `uint16` index per slot),
        the indices become the identity and the live count drops to 0. */
    method Resize(newMax: int)
      requires Valid()
      modifies this
      ensures Valid()
      ensures HasLODLevel == old(HasLODLevel) && ParticleStride == old(ParticleStride)
      ensures ParticleCounter == old(ParticleCounter)
      ensures newMax == old(MaxActiveParticles) ==>
        ParticleIndices == old(ParticleIndices) && ActiveParticles == old(ActiveParticles) &&
        MaxActiveParticles == old(MaxActiveParticles) && BlockSize == old(BlockSize)
      ensures newMax != old(MaxActiveParticles) ==>
        fresh(ParticleIndices) && MaxActiveParticles == newMax && ActiveParticles == 0 &&
        ParticleIndices[..] == Identity(if newMax > 0 then newMax else 0) &&
        BlockSize == (if newMax > 0 then newMax * ParticleStride + newMax * INDEX_BYTES else 0)
    {
      if newMax == MaxActiveParticles {
        return;
      }
      MaxActiveParticles := newMax;
      if newMax > 0 {
        BlockSize := newMax * ParticleStride + newMax * INDEX_BYTES;
        var indices := new int[newMax];
        var i := 0;
        while i < newMax
          modifies indices
          invariant 0 <= i <= newMax
          invariant forall k :: 0 <= k < i ==> indices[k] == k
        {
          indices[i] := i;
          i := i + 1;
        }
        assert indices[..] == Identity(newMax);
        ParticleIndices := indices;
      } else {
        BlockSize := 0;
        ParticleIndices := new int[0];
        assert ParticleIndices[..] == Identity(0);
      }
      ActiveParticles := 0;
    }

    /** `KillParticle`: an index outside the live range is ignored; otherwise
        the entry is exchanged with the last live one, which then leaves the
        live range. */
    method KillParticle(index: int)
      requires Valid()
      modifies this, ParticleIndices
      ensures Valid()
      ensures ParticleIndices == old(ParticleIndices) && MaxActiveParticles == old(MaxActiveParticles)
      ensures ParticleCounter == old(ParticleCounter) && BlockSize == old(BlockSize)
      ensures HasLODLevel == old(HasLODLevel) && ParticleStride == old(ParticleStride)
      ensures !(0 <= index < old(ActiveParticles)) ==>
        ActiveParticles == old(ActiveParticles) && ParticleIndices[..] == old(ParticleIndices[..])
      ensures 0 <= index < old(ActiveParticles) ==>
        ActiveParticles == old(ActiveParticles) - 1 &&
        ParticleIndices[..] == old(ParticleIndices[..])[index := old(ParticleIndices[ActiveParticles - 1])]
                                                       [old(ActiveParticles) - 1 := old(ParticleIndices[index])]
    {
      if index < 0 || index >= ActiveParticles {
        return;
      }
      var last := ActiveParticles - 1;
      SwapKeepsPermutation(ParticleIndices[..], index, last);
      if index != last {
        var temp := ParticleIndices[index];
        ParticleIndices[index] := ParticleIndices[last];
        ParticleIndices[last] := temp;
      }
      ActiveParticles := ActiveParticles - 1;
    }

    /** `KillAllParticles`: the live range becomes empty; the indices stay. */
    method KillAllParticles()
      requires Valid()
      modifies this
      ensures Valid()
      ensures ActiveParticles == 0
      ensures ParticleIndices == old(ParticleIndices) && MaxActiveParticles == old(MaxActiveParticles)
      ensures ParticleCounter == old(ParticleCounter) && BlockSize == old(BlockSize)
      ensures HasLODLevel == old(HasLODLevel) && ParticleStride == old(ParticleStride)
    {
      ActiveParticles := 0;
    }

    /** `GetParticleAtIndex`: no particle outside the live range, else the slot
        the index names. */
    method GetParticleAtIndex(index: int) returns (slot: Option<int>)
      requires Valid()
      ensures slot.None? <==> !(0 <= index < ActiveParticles)
      ensures slot.Some? ==> slot.value == ParticleIndices[index] && 0 <= slot.value < MaxActiveParticles
    {
      if index < 0 || index >= ActiveParticles {
        return None;
      }
      slot := Some(ParticleIndices[index]);
    }

    /** `SpawnParticles` on the buffer bookkeeping: nothing without a LOD
        level; otherwise `count` steps of the spawn loop, each of which counts
        one particle. `written` lists the raw slots the loop writes the new
        particles into, in order: each is the live count before its step, not
        the slot the index table names there. The loop needs a positive buffer
        size: with size 0 the doubling resize does nothing and the new particle
        is written outside the buffer. */
    method SpawnParticles(count: int) returns (written: seq<int>)
      requires Valid()
      requires HasLODLevel ==> MaxActiveParticles > 0
      modifies this
      ensures Valid()
      ensures HasLODLevel == old(HasLODLevel) && ParticleStride == old(ParticleStride)
      ensures !HasLODLevel ==>
        ParticleIndices == old(ParticleIndices) && ActiveParticles == old(ActiveParticles) &&
        MaxActiveParticles == old(MaxActiveParticles) && ParticleCounter == old(ParticleCounter)
      ensures HasLODLevel ==>
        ParticleCounter == CounterAfter(old(ParticleCounter), if count > 0 then count else 0) &&
        (ActiveParticles, MaxActiveParticles) ==
          SpawnN(old(ActiveParticles), old(MaxActiveParticles), if count > 0 then count else 0)
      ensures old(ActiveParticles) + count <= old(MaxActiveParticles) ==> ParticleIndices == old(ParticleIndices)
      ensures !HasLODLevel ==> written == []
      ensures HasLODLevel ==> |written| == (if count > 0 then count else 0)
      ensures forall k :: 0 <= k < |written| ==> 0 <= written[k] < MaxActiveParticles
      ensures |written| > 0 ==> written[|written| - 1] == ActiveParticles - 1
      ensures old(ActiveParticles) + count <= old(MaxActiveParticles) ==>
        forall k :: 0 <= k < |written| ==> written[k] == old(ActiveParticles) + k
    {
      written := [];
      if !HasLODLevel {
        return;
      }
      var i := 0;
      while i < count
        invariant Valid() && HasLODLevel == old(HasLODLevel) && ParticleStride == old(ParticleStride)
        invariant 0 <= i && (count > 0 ==> i <= count) && (count <= 0 ==> i == 0)
        invariant MaxActiveParticles > 0
        invariant old(ActiveParticles) + count <= old(MaxActiveParticles) ==>
          ParticleIndices == old(ParticleIndices) && ActiveParticles == old(ActiveParticles) + i &&
          MaxActiveParticles == old(MaxActiveParticles)
        invariant ParticleCounter == CounterAfter(old(ParticleCounter), i)
        invariant (ActiveParticles, MaxActiveParticles) == SpawnN(old(ActiveParticles), old(MaxActiveParticles), i)
        invariant |written| == i
        invariant forall k :: 0 <= k < |written| ==> 0 <= written[k] < MaxActiveParticles
        invariant i > 0 ==> written[i - 1] == ActiveParticles - 1
        invariant old(ActiveParticles) + count <= old(MaxActiveParticles) ==>
          forall k :: 0 <= k < |written| ==> written[k] == old(ActiveParticles) + k
      {
        var slot := SpawnOne();
        written := written + [slot];
        i := i + 1;
      }
    }

    /** One pass of the spawn loop: resize when full, then count the particle
        and write it into raw slot `written`, the live count before the
        increment. */
    method SpawnOne() returns (written: int)
      requires Valid() && MaxActiveParticles > 0
      modifies this
      ensures Valid() && MaxActiveParticles > 0 && MaxActiveParticles >= old(MaxActiveParticles)
      ensures written == ActiveParticles - 1 && 0 <= written < MaxActiveParticles
      ensures old(ActiveParticles) < old(MaxActiveParticles) ==> written == old(ActiveParticles)
      ensures HasLODLevel == old(HasLODLevel) && ParticleStride == old(ParticleStride)
      ensures (ActiveParticles, MaxActiveParticles) == SpawnStep(old(ActiveParticles), old(MaxActiveParticles))
      ensures ParticleCounter == CounterAfter(old(ParticleCounter), 1)
      ensures old(ActiveParticles) < old(MaxActiveParticles) ==> ParticleIndices == old(ParticleIndices)
    {
      if ActiveParticles >= MaxActiveParticles {
        Resize(MaxActiveParticles * 2);
      }
      written := ActiveParticles;
      ActiveParticles := ActiveParticles + 1;
      ParticleCounter := (ParticleCounter + 1) % COUNTER_MODULUS;
    }

    /** Doubles the buffer and keeps the live particles where they are: the
        old index entries stay in front and the new slots follow. The growth
        step `SpawnParticlesKeepingLive` uses. */
    method Grow()
      requires Valid() && MaxActiveParticles > 0
      modifies this
      ensures Valid() && fresh(ParticleIndices)
      ensures MaxActiveParticles == 2 * old(MaxActiveParticles) && ActiveParticles == old(ActiveParticles)
      ensures ParticleIndices[..old(MaxActiveParticles)] == old(ParticleIndices[..])
      ensures HasLODLevel == old(HasLODLevel) && ParticleStride == old(ParticleStride)
      ensures ParticleCounter == old(ParticleCounter)
    {
      var n := MaxActiveParticles;
      var indices := new int[2 * n];
      var i := 0;
      while i < 2 * n
        modifies indices
        invariant 0 <= i <= 2 * n
        invariant forall k :: 0 <= k < i ==> indices[k] == if k < n then ParticleIndices[k] else k
      {
        indices[i] := if i < n then ParticleIndices[i] else i;
        i := i + 1;
      }
      GrownIsPermutation(ParticleIndices[..], indices[..]);
      assert indices[..n] == ParticleIndices[..];
      ParticleIndices := indices;
      MaxActiveParticles := 2 * n;
      BlockSize := MaxActiveParticles * ParticleStride + MaxActiveParticles * INDEX_BYTES;
    }

    /** `SpawnParticles` as evidently intended: a full buffer grows without
        dropping the live particles, so each spawn adds exactly one live
        particle and the live particles keep their slots. Each new particle is
        written into the slot its index entry names, so `written` are the
        slots of the new live positions and none of them held a live particle
        before. */
    method SpawnParticlesKeepingLive(count: int) returns (written: seq<int>)
      requires Valid()
      requires HasLODLevel ==> MaxActiveParticles > 0
      modifies this
      ensures Valid()
      ensures HasLODLevel == old(HasLODLevel) && ParticleStride == old(ParticleStride)
      ensures !HasLODLevel ==>
        ParticleIndices == old(ParticleIndices) && ActiveParticles == old(ActiveParticles) &&
        MaxActiveParticles == old(MaxActiveParticles) && ParticleCounter == old(ParticleCounter)
      ensures HasLODLevel ==>
        ParticleCounter == CounterAfter(old(ParticleCounter), if count > 0 then count else 0) &&
        ActiveParticles == old(ActiveParticles) + (if count > 0 then count else 0) &&
        ParticleIndices[..old(ActiveParticles)] == old(ParticleIndices[..ActiveParticles])
      ensures !HasLODLevel ==> written == []
      ensures HasLODLevel ==> written == ParticleIndices[old(ActiveParticles)..ActiveParticles]
      ensures forall k :: 0 <= k < |written| ==> written[k] !in old(ParticleIndices[..ActiveParticles])
    {
      written := [];
      if !HasLODLevel {
        return;
      }
      ghost var live := ParticleIndices[..ActiveParticles];
      var i := 0;
      while i < count
        invariant Valid() && HasLODLevel == old(HasLODLevel) && ParticleStride == old(ParticleStride)
        invariant 0 <= i && (count > 0 ==> i <= count) && (count <= 0 ==> i == 0)
        invariant MaxActiveParticles > 0
        invariant ParticleCounter == CounterAfter(old(ParticleCounter), i)
        invariant ActiveParticles == |live| + i
        invariant ParticleIndices[..|live|] == live
        invariant written == ParticleIndices[|live|..ActiveParticles]
        invariant forall k :: 0 <= k < |written| ==> written[k] !in live
      {
        ghost var before := ParticleIndices[..ActiveParticles];
        var slot := SpawnOneKeepingLive();
        assert slot !in live by {
          assert live == before[..|live|];
        }
        assert ParticleIndices[|live|..ActiveParticles] == before[|live|..] + [slot] by {
          assert ParticleIndices[..ActiveParticles] == before + [slot];
        }
        written := written + [slot];
        i := i + 1;
      }
    }

    /** One spawn of `SpawnParticlesKeepingLive`: grows a full buffer, then
        adds one live particle, written into the slot the next index entry
        names. The slots of the live particles stay put, and the written slot
        is none of them, because the index table is a permutation. */
    method SpawnOneKeepingLive() returns (written: int)
      requires Valid() && MaxActiveParticles > 0
      modifies this
      ensures Valid() && MaxActiveParticles > 0
      ensures HasLODLevel == old(HasLODLevel) && ParticleStride == old(ParticleStride)
      ensures ParticleCounter == CounterAfter(old(ParticleCounter), 1)
      ensures ActiveParticles == old(ActiveParticles) + 1
      ensures ParticleIndices[..old(ActiveParticles)] == old(ParticleIndices[..ActiveParticles])
      ensures written == ParticleIndices[ActiveParticles - 1] && 0 <= written < MaxActiveParticles
      ensures written !in old(ParticleIndices[..ActiveParticles])
    {
      if ActiveParticles >= MaxActiveParticles {
        ghost var m := MaxActiveParticles;
        Grow();
        assert ParticleIndices[..ActiveParticles] == ParticleIndices[..m][..ActiveParticles];
      }
      written := ParticleIndices[ActiveParticles];
      forall a | 0 <= a < ActiveParticles
        ensures ParticleIndices[..ActiveParticles][a] != written
      {
        assert ParticleIndices[..][a] != ParticleIndices[..][ActiveParticles];
      }
      ActiveParticles := ActiveParticles + 1;
      ParticleCounter := (ParticleCounter + 1) % COUNTER_MODULUS;
    }

    /** The update loop of `UpdateParticles` on the buffer bookkeeping: walks
        the live range from the back and kills every particle whose slot has
        expired. Whether a slot expires depends on the floating-point lifetime
        arithmetic and is given by `expired`. Afterwards the live slots are
        exactly the old live slots that did not expire; without a LOD level
        nothing happens. */
    method UpdateParticles(expired: int -> bool)
      requires Valid()
      modifies this, ParticleIndices
      ensures Valid()
      ensures ParticleIndices == old(ParticleIndices) && MaxActiveParticles == old(MaxActiveParticles)
      ensures ParticleCounter == old(ParticleCounter)
      ensures !HasLODLevel ==> ActiveParticles == old(ActiveParticles) && ParticleIndices[..] == old(ParticleIndices[..])
      ensures HasLODLevel ==>
        SlotsAt(ParticleIndices[..], 0, ActiveParticles) == Survivors(old(ParticleIndices[..ActiveParticles]), 0, expired)
    {
      if !HasLODLevel {
        return;
      }
      ghost var live := ParticleIndices[..ActiveParticles];
      var i := ActiveParticles;
      while i > 0
        invariant Valid() && ParticleIndices == old(ParticleIndices) && MaxActiveParticles == old(MaxActiveParticles)
        invariant ParticleCounter == old(ParticleCounter) && HasLODLevel
        invariant 0 <= i <= ActiveParticles <= |live|
        invariant ParticleIndices[..i] == live[..i]
        invariant SlotsAt(ParticleIndices[..], i, ActiveParticles) == Survivors(live, i, expired)
      {
        i := i - 1;
        assert ParticleIndices[i] == live[i] by {
          assert ParticleIndices[..i + 1][i] == live[..i + 1][i];
        }
        UpdateParticleAt(i, expired);
        SurvivorsStep(live, i, expired);
        assert ParticleIndices[..i] == live[..i + 1][..i];
      }
      assert live[0..] == live;
    }

    /** One pass of the update loop, at live position `i`: the particle is
        killed when its slot has expired. Positions before `i` are untouched,
        and the slots at positions `i ..` of the live range become those at
        `i + 1 ..` plus the slot at `i` if it survives. */
    method UpdateParticleAt(i: int, expired: int -> bool)
      requires Valid() && 0 <= i < ActiveParticles
      modifies this, ParticleIndices
      ensures Valid()
      ensures ParticleIndices == old(ParticleIndices) && MaxActiveParticles == old(MaxActiveParticles)
      ensures ParticleCounter == old(ParticleCounter) && HasLODLevel == old(HasLODLevel)
      ensures i <= ActiveParticles <= old(ActiveParticles)
      ensures ParticleIndices[..i] == old(ParticleIndices[..i])
      ensures SlotsAt(ParticleIndices[..], i, ActiveParticles) ==
        SlotsAt(old(ParticleIndices[..]), i + 1, old(ActiveParticles)) +
        (if expired(old(ParticleIndices[i])) then {} else {old(ParticleIndices[i])})
    {
      var slot := GetParticleAtIndex(i);
      ghost var before := ParticleIndices[..];
      ghost var activeBefore := ActiveParticles;
      if expired(slot.value) {
        KillParticle(i);
        KillKeepsSurvivors(before, i, activeBefore, ParticleIndices[..]);
      } else {
        KeepAddsSurvivor(before, i, activeBefore);
      }
    }

    /** `GetDynamicData`: nothing while no particle is live; otherwise a
        snapshot holding the first `ActiveParticles` slots of data, the live
        index entries and a block sized for both. */
    method GetDynamicData() returns (r: Option<DynamicData>)
      requires Valid()
      ensures r.None? <==> ActiveParticles <= 0
      ensures r.Some? ==>
        r.value.ActiveParticleCount == ActiveParticles &&
        r.value.ParticleStride == ParticleStride &&
        r.value.ParticleDataNumBytes == ActiveParticles * ParticleStride &&
        r.value.ParticleIndicesNumShorts == ActiveParticles &&
        r.value.MemBlockSize == r.value.ParticleDataNumBytes + ActiveParticles * INDEX_BYTES &&
        r.value.Indices == ParticleIndices[..ActiveParticles]
    {
      if ActiveParticles <= 0 {
        return None;
      }
      var bytes := ActiveParticles * ParticleStride;
      r := Some(DynamicData(ActiveParticles, ParticleStride, bytes, ActiveParticles,
                            bytes + ActiveParticles * INDEX_BYTES, ParticleIndices[..ActiveParticles]));
    }

    /** `GetDynamicData` as evidently intended: the snapshot copies the data of
        every slot, so each live index the renderer follows lands inside the
        copied data. */
    method GetDynamicDataAllSlots() returns (r: Option<DynamicData>)
      requires Valid()
      ensures r.None? <==> ActiveParticles <= 0
      ensures r.Some? ==>
        r.value.ActiveParticleCount == ActiveParticles &&
        r.value.ParticleStride == ParticleStride &&
        r.value.ParticleDataNumBytes == MaxActiveParticles * ParticleStride &&
        r.value.ParticleIndicesNumShorts == ActiveParticles &&
        r.value.MemBlockSize == r.value.ParticleDataNumBytes + ActiveParticles * INDEX_BYTES &&
        r.value.Indices == ParticleIndices[..ActiveParticles]
      ensures r.Some? ==> ReadsInsideData(r.value)
    {
      if ActiveParticles <= 0 {
        return None;
      }
      var bytes := MaxActiveParticles * ParticleStride;
      var d := DynamicData(ActiveParticles, ParticleStride, bytes, ActiveParticles,
                           bytes + ActiveParticles * INDEX_BYTES, ParticleIndices[..ActiveParticles]);
      forall k | 0 <= k < |d.Indices|
        ensures 0 <= d.Indices[k] && (d.Indices[k] + 1) * d.ParticleStride <= d.ParticleDataNumBytes
      {
        assert d.Indices[k] == ParticleIndices[..][k];
        SlotFitsInData(d.Indices[k], MaxActiveParticles, ParticleStride);
      }
      r := Some(d);
    }
  }

  /** Doubling keeps a permutation: the old entries stay below the old size,
      the new slots are the positions above it. */
  lemma GrownIsPermutation(old_: seq<int>, grown: seq<int>)
    requires IsPermutation(old_) && |grown| == 2 * |old_|
    requires forall k :: 0 <= k < |grown| ==> grown[k] == if k < |old_| then old_[k] else k
    ensures IsPermutation(grown)
  {
    forall a, b | 0 <= a < b < |grown|
      ensures grown[a] != grown[b]
    {
      if b < |old_| {
        assert old_[a] != old_[b];
      }
    }
  }

  /** The slots named at positions `lo .. hi` of an index array. */
  ghost function SlotsAt(s: seq<int>, lo: int, hi: int): set<int>
  {
    set k | lo <= k < hi && 0 <= k < |s| :: s[k]
  }

  /** The slots named at positions `lo ..` of the old live range whose
      particles did not expire. */
  ghost function Survivors(live: seq<int>, lo: int, expired: int -> bool): set<int>
  {
    set k | lo <= k < |live| && 0 <= k && !expired(live[k]) :: live[k]
  }

  /** The survivors among positions `i ..` of the old live range are those
      among `i + 1 ..`, plus the slot at `i` when it did not expire. */
  lemma SurvivorsStep(live: seq<int>, i: int, expired: int -> bool)
    requires 0 <= i < |live|
    ensures Survivors(live, i, expired) ==
      Survivors(live, i + 1, expired) + (if expired(live[i]) then {} else {live[i]})
  {
  }

  /** The slots held at positions `i ..` of the live range after the loop
      keeps position `i`: those held at `i + 1 ..` plus the slot at `i`. */
  lemma KeepAddsSurvivor(s: seq<int>, i: int, active: int)
    requires 0 <= i < active <= |s|
    ensures SlotsAt(s, i, active) == SlotsAt(s, i + 1, active) + {s[i]}
  {
  }

  /** After killing position `i` (exchange with the last live position, then
      shrink) the slots held at positions `i ..` of the live range are those
      held at `i + 1 ..` before. */
  lemma KillKeepsSurvivors(before: seq<int>, i: int, active: int, after: seq<int>)
    requires 0 <= i < active <= |before|
    requires after == before[i := before[active - 1]][active - 1 := before[i]]
    ensures SlotsAt(after, i, active - 1) == SlotsAt(before, i + 1, active)
    ensures after[..i] == before[..i]
  {
    var lhs := SlotsAt(after, i, active - 1);
    var rhs := SlotsAt(before, i + 1, active);
    forall x | x in rhs
      ensures x in lhs
    {
      var k :| i + 1 <= k < active && before[k] == x;
      if k == active - 1 {
        assert after[i] == x;
      } else {
        assert after[k] == x;
      }
    }
    forall x | x in lhs
      ensures x in rhs
    {
      var k :| i <= k < active - 1 && after[k] == x;
      if k == i {
        assert before[active - 1] == x;
      } else {
        assert before[k] == x;
      }
    }
  }

  /** A slot below the buffer size ends inside the buffer's data. */
  lemma SlotFitsInData(slot: int, max: int, stride: nat)
    requires 0 <= slot < max
    ensures (slot + 1) * stride <= max * stride
  {
    var d := max - (slot + 1);
    assert max * stride == (slot + 1) * stride + d * stride;
  }

  /** As written, spawning into a full buffer empties it: the resize to twice
      the size resets the live count, so after one more spawn only the new
      particle is live. */
  lemma SpawnWhenFullDropsLive(active: int, max: int)
    requires 0 < active == max
    ensures SpawnN(active, max, 1) == (1, 2 * max)
    ensures SpawnN(active, max, 1).0 < active + 1
  {
  }

  /** As written, a spawn after a kill writes over a live particle: with two
      particles spawned (slots 0 and 1) and the first one killed, the only
      live particle is in slot 1, yet the next spawn writes into raw slot 1,
      and the new live position names slot 0, the killed particle's. */
  method KillThenSpawnOverwrites() returns (liveBefore: seq<int>, written: int, liveAfter: seq<int>)
    ensures liveBefore == [1] && written == 1 && written in liveBefore
    ensures liveAfter == [1, 0] && written != liveAfter[1]
  {
    var e := new FParticleEmitterInstance();
    e.Init(true, true, 1);
    var spawned := e.SpawnParticles(2);
    SpawnWithoutGrowth(0, 100, 2);
    assert e.ParticleIndices[0] == 0 && e.ParticleIndices[1] == 1;
    e.KillParticle(0);
    liveBefore := e.ParticleIndices[..e.ActiveParticles];
    assert liveBefore == [1];
    written := e.SpawnOne();
    liveAfter := e.ParticleIndices[..e.ActiveParticles];
    assert liveAfter == [1, 0];
  }

  /** As written, a snapshot taken after a kill can send the renderer outside
      the copied data: with two particles spawned and the first one killed,
      the only live index names slot 1, but only slot 0's bytes are copied. */
  method KillThenSnapshot(stride: nat) returns (r: Option<DynamicData>)
    requires stride > 0
    ensures r.Some? && r.value.Indices == [1] && r.value.ParticleDataNumBytes == stride
    ensures !ReadsInsideData(r.value)
  {
    var e := new FParticleEmitterInstance();
    e.Init(true, true, stride);
    var spawned := e.SpawnParticles(2);
    SpawnWithoutGrowth(0, 100, 2);
    assert e.ParticleIndices[1] == 1;
    e.KillParticle(0);
    r := e.GetDynamicData();
    assert r.value.Indices[0] == 1;
    assert r.value.Indices == [1];
  }
}
