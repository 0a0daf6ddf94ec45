/** The event receiver modules (ParticleModuleEventReceiver.cpp): a spawn
    receiver that spawns particles into an emitter instance when an event of
    the type it listens to arrives, and a kill receiver that kills some of
    the instance's live particles. Event positions, velocities and particle
    distances are floating point; the kill receiver's distance order is given
    as a parameter. */
module ParticleEventReceiver {
  import opened ParticleEmitter
  import opened Sequences

  /** `EParticleEventType`: `Any` and the types the receivers name; the other
      enumerators are told apart by their code. */
  datatype EventType = Any | Death | Collision | Other(Code: int)

  /** The type filter both receivers apply first: a receiver listening to
      `Any` takes every event, any other receiver only its own type. */
  function Accepts(listening: EventType, received: EventType): bool
  {
    listening == Any || listening == received
  }

  class UParticleModuleEventReceiverSpawn {
    var EventType: EventType
    var SpawnCount: int

    /** Listens to death events and spawns one particle per event. */
    constructor()
      ensures EventType == Death && SpawnCount == 1
    {
      EventType := Death;
      SpawnCount := 1;
    }

    /** `SpawnParticlesAtLocation`: nothing without an owner or with a
        non-positive spawn count; otherwise one call spawning `SpawnCount`
        particles into the owner. */
    method SpawnParticlesAtLocation(owner: FParticleEmitterInstance?)
      requires owner != null ==> owner.Valid() && (owner.HasLODLevel ==> owner.MaxActiveParticles > 0)
      modifies owner
      ensures owner != null ==> owner.Valid()
      ensures owner != null && SpawnCount <= 0 ==> unchanged(owner)
      ensures owner != null && SpawnCount > 0 ==> SpawnedInto(owner, SpawnCount)
    {
      if owner == null || SpawnCount <= 0 {
        return;
      }
      var written := owner.SpawnParticles(SpawnCount);
    }

    /** `HandleEvent`: an event of a type the receiver does not listen to
        leaves the owner alone; otherwise the particles are spawned. */
    method HandleEvent(owner: FParticleEmitterInstance?, received: EventType)
      requires owner != null ==> owner.Valid() && (owner.HasLODLevel ==> owner.MaxActiveParticles > 0)
      modifies owner
      ensures owner != null ==> owner.Valid()
      ensures owner != null && (!Accepts(EventType, received) || SpawnCount <= 0) ==> unchanged(owner)
      ensures owner != null && Accepts(EventType, received) && SpawnCount > 0 ==> SpawnedInto(owner, SpawnCount)
    {
      if owner == null {
        return;
      }
      if EventType != Any && EventType != received {
        return;
      }
      SpawnParticlesAtLocation(owner);
    }

    /** `HandleCollisionEvent`: the same, for an event of collision type. */
    method HandleCollisionEvent(owner: FParticleEmitterInstance?)
      requires owner != null ==> owner.Valid() && (owner.HasLODLevel ==> owner.MaxActiveParticles > 0)
      modifies owner
      ensures owner != null ==> owner.Valid()
      ensures owner != null && (!Accepts(EventType, Collision) || SpawnCount <= 0) ==> unchanged(owner)
      ensures owner != null && Accepts(EventType, Collision) && SpawnCount > 0 ==> SpawnedInto(owner, SpawnCount)
    {
      if owner == null {
        return;
      }
      if EventType != Any && EventType != Collision {
        return;
      }
      SpawnParticlesAtLocation(owner);
    }
  }

  /** The owner's bookkeeping after `SpawnParticles(count)` with a positive
      count: the counter moved on by `count` and the live count and buffer
      size followed the spawn loop; without a LOD level nothing changed. */
  twostate predicate SpawnedInto(owner: FParticleEmitterInstance, count: nat)
    reads owner
  {
    owner.HasLODLevel == old(owner.HasLODLevel) &&
    (owner.HasLODLevel ==>
      owner.ParticleCounter == CounterAfter(old(owner.ParticleCounter), count) &&
      (owner.ActiveParticles, owner.MaxActiveParticles) ==
        SpawnN(old(owner.ActiveParticles), old(owner.MaxActiveParticles), count)) &&
    (!owner.HasLODLevel ==>
      owner.ActiveParticles == old(owner.ActiveParticles) &&
      owner.ParticleCounter == old(owner.ParticleCounter))
  }

  /** How many particles a kill event kills: all live ones when `KillCount`
      is 0, else `KillCount` capped at the live count. A negative result
      kills nothing. */
  function ParticlesToKill(killCount: int, active: int): (n: int)
    ensures killCount == 0 ==> n == active
    ensures killCount != 0 ==> n <= killCount && n <= active && (n == killCount || n == active)
  {
    if killCount == 0 then active
    else if killCount < active then killCount else active
  }

  /** The slots held at the old live positions outside `gone`. */
  ghost function LiveExcept(live: seq<int>, gone: set<int>): set<int>
  {
    set p | 0 <= p < |live| && p !in gone :: live[p]
  }

  /** The positions in `s` below `hi`, largest first: the kill list sorted
      into descending order. */
  function Descending(s: set<int>, hi: int): (d: seq<int>)
    ensures forall m :: 0 <= m < |d| ==> 0 <= d[m] < hi && d[m] in s
    ensures forall m, m' :: 0 <= m < m' < |d| ==> d[m] > d[m']
    ensures forall p :: 0 <= p < hi && p in s ==> p in d
    decreases hi
  {
    if hi <= 0 then []
    else
      var rest := Descending(s, hi - 1);
      if hi - 1 in s then [hi - 1] + rest else rest
  }

  /** The positions a nearest-first kill chooses: the first `n` of the
      distance order. */
  function Chosen(byDistance: seq<int>, n: int): (c: set<int>)
    requires 0 <= n <= |byDistance|
    ensures forall m :: 0 <= m < n ==> byDistance[m] in c
    ensures forall p :: p in c ==> exists m :: 0 <= m < n && byDistance[m] == p
  {
    set m | 0 <= m < n :: byDistance[m]
  }

  class UParticleModuleEventReceiverKill {
    var EventType: EventType
    var KillCount: int
    var KillNearestFirst: bool

    constructor(eventType: EventType, killCount: int, nearestFirst: bool)
      ensures EventType == eventType && KillCount == killCount && KillNearestFirst == nearestFirst
    {
      EventType := eventType;
      KillCount := killCount;
      KillNearestFirst := nearestFirst;
    }

    /** `HandleEvent`: an event of a type the receiver does not listen to
        leaves the owner alone; otherwise particles are killed. */
    method HandleEvent(owner: FParticleEmitterInstance?, received: EventType, byDistance: seq<int>)
      requires owner != null ==> owner.Valid() && |byDistance| == owner.ActiveParticles && IsPermutation(byDistance)
      modifies owner, if owner != null then {owner.ParticleIndices} else {}
      ensures owner != null && !Accepts(EventType, received) ==>
        unchanged(owner) && unchanged(owner.ParticleIndices)
      ensures owner != null && Accepts(EventType, received) ==>
        owner.Valid() && owner.ActiveParticles == old(owner.ActiveParticles) - KillsFor(old(owner.ActiveParticles))
    {
      if owner == null {
        return;
      }
      if EventType != Any && EventType != received {
        return;
      }
      KillParticles(owner, byDistance);
    }

    /** The number of particles `KillParticles` removes from `active` live
        ones: `ParticlesToKill`, or none when that is negative. */
    function KillsFor(active: int): (k: int)
      reads this
      requires 0 <= active
      ensures 0 <= k <= active
      ensures KillCount == 0 ==> k == active
      ensures 0 < KillCount ==> k == if KillCount < active then KillCount else active
      ensures KillCount < 0 ==> k == 0
    {
      var n := ParticlesToKill(KillCount, active);
      if n < 0 then 0 else n
    }

    /** `KillParticles`: with nearest-first set and fewer kills than live
        particles, the positions of the first `n` particles in distance order
        are killed, largest position first; otherwise positions `n - 1` down
        to 0 are killed. Either way exactly the chosen particles die and
        every other live particle keeps living. `byDistance` is the live
        positions sorted by distance from the event. */
    method KillParticles(owner: FParticleEmitterInstance?, byDistance: seq<int>)
      requires owner != null ==> owner.Valid() && |byDistance| == owner.ActiveParticles && IsPermutation(byDistance)
      modifies owner, if owner != null then {owner.ParticleIndices} else {}
      ensures owner != null ==> owner.Valid()
      ensures owner != null ==> owner.ParticleIndices == old(owner.ParticleIndices)
      ensures owner != null ==> owner.MaxActiveParticles == old(owner.MaxActiveParticles)
      ensures owner != null ==> owner.ParticleCounter == old(owner.ParticleCounter)
      ensures owner != null ==> owner.ActiveParticles == old(owner.ActiveParticles) - KillsFor(old(owner.ActiveParticles))
      ensures owner != null && KillNearestFirst && ParticlesToKill(KillCount, old(owner.ActiveParticles)) < old(owner.ActiveParticles) ==>
        SlotsAt(owner.ParticleIndices[..], 0, owner.ActiveParticles) ==
          LiveExcept(old(owner.ParticleIndices[..owner.ActiveParticles]), Chosen(byDistance, KillsFor(old(owner.ActiveParticles))))
      ensures owner != null && !(KillNearestFirst && ParticlesToKill(KillCount, old(owner.ActiveParticles)) < old(owner.ActiveParticles)) ==>
        SlotsAt(owner.ParticleIndices[..], 0, owner.ActiveParticles) ==
          SlotsAt(old(owner.ParticleIndices[..owner.ActiveParticles]), KillsFor(old(owner.ActiveParticles)), old(owner.ActiveParticles))
    {
      if owner == null {
        return;
      }
      var active := owner.ActiveParticles;
      var n := ParticlesToKill(KillCount, active);
      if KillNearestFirst && n < active {
        var k := KillsFor(active);
        var chosen := Chosen(byDistance, k);
        ChosenCount(byDistance, k);
        var indicesToKill := Descending(chosen, active);
        KillDescending(owner, indicesToKill, chosen);
      } else {
        KillFront(owner, n);
        LiveExceptFront(old(owner.ParticleIndices[..owner.ActiveParticles]), KillsFor(active));
      }
    }
  }

  /** The first `n` entries of a permutation name `n` different positions. */
  lemma {:induction false} ChosenCount(byDistance: seq<int>, n: int)
    requires IsPermutation(byDistance) && 0 <= n <= |byDistance|
    ensures |Chosen(byDistance, n)| == n
    decreases n
  {
    if n > 0 {
      ChosenCount(byDistance, n - 1);
      ChosenStep(byDistance, n);
    }
  }


  /** Choosing one more entry of a permutation adds one new position. */
  lemma ChosenStep(byDistance: seq<int>, n: int)
    requires IsPermutation(byDistance) && 0 < n <= |byDistance|
    ensures Chosen(byDistance, n) == Chosen(byDistance, n - 1) + {byDistance[n - 1]}
    ensures byDistance[n - 1] !in Chosen(byDistance, n - 1)
  {
    var last := byDistance[n - 1];
    forall m | 0 <= m < n - 1
      ensures byDistance[m] != last
    {
    }
    forall p | p in Chosen(byDistance, n)
      ensures p in Chosen(byDistance, n - 1) + {last}
    {
      var m :| 0 <= m < n && byDistance[m] == p;
      if m < n - 1 {
        assert byDistance[m] in Chosen(byDistance, n - 1);
      }
    }
  }

  /** The front loop of `KillParticles`: kills positions `n - 1` down to 0.
      Each kill takes a position no earlier kill has touched, so the slots
      that die are exactly those at the first `n` live positions. */
  method KillFront(owner: FParticleEmitterInstance, n: int)
    requires owner.Valid() && n <= owner.ActiveParticles
    modifies owner, owner.ParticleIndices
    ensures owner.Valid()
    ensures owner.ParticleIndices == old(owner.ParticleIndices) && owner.MaxActiveParticles == old(owner.MaxActiveParticles)
    ensures owner.ParticleCounter == old(owner.ParticleCounter)
    ensures owner.ActiveParticles == old(owner.ActiveParticles) - (if n > 0 then n else 0)
    ensures SlotsAt(owner.ParticleIndices[..], 0, owner.ActiveParticles) ==
      LiveExcept(old(owner.ParticleIndices[..owner.ActiveParticles]), Between(0, n))
  {
    ghost var live := owner.ParticleIndices[..owner.ActiveParticles];
    ghost var gone: set<int> := {};
    ghost var all := owner.ParticleIndices[..];
    assert Distinct(live);
    assert SlotsAt(all, 0, |live|) == LiveExcept(live, gone) by {
      PrefixSlots(all, |live|);
    }
    var i := n - 1;
    while i >= 0
      invariant owner.Valid() && owner.ParticleIndices == old(owner.ParticleIndices)
      invariant owner.MaxActiveParticles == old(owner.MaxActiveParticles) && owner.ParticleCounter == old(owner.ParticleCounter)
      invariant i < |live| && (n > 0 ==> -1 <= i < n) && (n <= 0 ==> i == n - 1)
      invariant owner.ActiveParticles == |live| - (if n > 0 then n - 1 - i else 0)
      invariant gone == Between(i + 1, n)
      invariant forall p :: 0 <= p <= i ==> owner.ParticleIndices[p] == live[p]
      invariant SlotsAt(owner.ParticleIndices[..], 0, owner.ActiveParticles) == LiveExcept(live, gone)
    {
      KillUntouched(owner, i, live, gone);
      gone := gone + {i};
      assert gone == Between(i, n);
      i := i - 1;
    }
    assert gone == Between(0, n);
  }

  /** The nearest-first loop of `KillParticles`: kills the positions of
      `order`, largest first. */
  method KillDescending(owner: FParticleEmitterInstance, order: seq<int>, chosen: set<int>)
    requires owner.Valid()
    requires forall m :: 0 <= m < |order| ==> 0 <= order[m] < owner.ActiveParticles && order[m] in chosen
    requires forall m, m' :: 0 <= m < m' < |order| ==> order[m] > order[m']
    requires forall p :: p in chosen ==> p in order
    modifies owner, owner.ParticleIndices
    ensures owner.Valid()
    ensures owner.ParticleIndices == old(owner.ParticleIndices) && owner.MaxActiveParticles == old(owner.MaxActiveParticles)
    ensures owner.ParticleCounter == old(owner.ParticleCounter)
    ensures owner.ActiveParticles == old(owner.ActiveParticles) - |chosen|
    ensures SlotsAt(owner.ParticleIndices[..], 0, owner.ActiveParticles) ==
      LiveExcept(old(owner.ParticleIndices[..owner.ActiveParticles]), chosen)
  {
    ghost var live := owner.ParticleIndices[..owner.ActiveParticles];
    ghost var gone: set<int> := {};
    ghost var all := owner.ParticleIndices[..];
    assert Distinct(live);
    assert SlotsAt(all, 0, |live|) == LiveExcept(live, gone) by {
      PrefixSlots(all, |live|);
    }
    var k := 0;
    while k < |order|
      invariant owner.Valid() && owner.ParticleIndices == old(owner.ParticleIndices)
      invariant owner.MaxActiveParticles == old(owner.MaxActiveParticles) && owner.ParticleCounter == old(owner.ParticleCounter)
      invariant 0 <= k <= |order|
      invariant owner.ActiveParticles == |live| - k
      invariant gone == Elements(order[..k])
      invariant forall m :: k <= m < |order| ==> order[m] < |live| - k
      invariant forall p :: 0 <= p < (if k == 0 then |live| else order[k - 1]) ==> owner.ParticleIndices[p] == live[p]
      invariant SlotsAt(owner.ParticleIndices[..], 0, owner.ActiveParticles) == LiveExcept(live, gone)
    {
      ElementsAbove(order, k);
      KillUntouched(owner, order[k], live, gone);
      gone := gone + {order[k]};
      assert order[..k + 1] == order[..k] + [order[k]];
      k := k + 1;
    }
    assert order[..k] == order;
    ElementsAll(order, chosen);
  }

  /** Kills live position `i`, which no earlier kill touched: the slot there
      leaves the live set, and positions below `i` stay untouched. */
  method KillUntouched(owner: FParticleEmitterInstance, i: int, ghost live: seq<int>, ghost gone: set<int>)
    requires owner.Valid() && 0 <= i < owner.ActiveParticles && i < |live| && i !in gone
    requires owner.ParticleIndices[i] == live[i]
    requires Distinct(live)
    requires SlotsAt(owner.ParticleIndices[..], 0, owner.ActiveParticles) == LiveExcept(live, gone)
    modifies owner, owner.ParticleIndices
    ensures owner.Valid() && owner.ParticleIndices == old(owner.ParticleIndices)
    ensures owner.MaxActiveParticles == old(owner.MaxActiveParticles) && owner.ParticleCounter == old(owner.ParticleCounter)
    ensures owner.ActiveParticles == old(owner.ActiveParticles) - 1
    ensures forall p :: 0 <= p < i ==> owner.ParticleIndices[p] == old(owner.ParticleIndices[p])
    ensures SlotsAt(owner.ParticleIndices[..], 0, owner.ActiveParticles) == LiveExcept(live, gone + {i})
  {
    ghost var before := owner.ParticleIndices[..];
    owner.KillParticle(i);
    KillRemovesSlot(before, i, old(owner.ActiveParticles), owner.ParticleIndices[..]);
    LiveExceptStep(live, gone, i);
  }

  /** The positions listed in a sequence. */
  ghost function Elements(s: seq<int>): set<int>
  {
    set m | 0 <= m < |s| :: s[m]
  }

  /** In a descending list every position killed so far lies above the
      position killed next. */
  lemma ElementsAbove(order: seq<int>, k: int)
    requires 0 <= k < |order|
    requires forall m, m' :: 0 <= m < m' < |order| ==> order[m] > order[m']
    ensures order[k] !in Elements(order[..k])
  {
  }

  /** A list of `|chosen|` distinct members of `chosen` lists all of it. */
  lemma ElementsAll(order: seq<int>, chosen: set<int>)
    requires forall m :: 0 <= m < |order| ==> order[m] in chosen
    requires forall m, m' :: 0 <= m < m' < |order| ==> order[m] > order[m']
    requires forall p :: p in chosen ==> p in order
    ensures Elements(order) == chosen && |chosen| == |order|
  {
    ElementsCount(order);
    forall p | p in chosen
      ensures p in Elements(order)
    {
      var m :| 0 <= m < |order| && order[m] == p;
    }
  }

  /** A strictly descending list names as many positions as it is long. */
  lemma {:induction false} ElementsCount(order: seq<int>)
    requires forall m, m' :: 0 <= m < m' < |order| ==> order[m] > order[m']
    ensures |Elements(order)| == |order|
  {
    if order != [] {
      var init := order[..|order| - 1];
      ElementsCount(init);
      assert Elements(order) == Elements(init) + {order[|order| - 1]};
      assert order[|order| - 1] !in Elements(init);
    }
  }

  /** Before any kill, the live positions hold the live slots. */
  lemma PrefixSlots(all: seq<int>, active: int)
    requires 0 <= active <= |all|
    ensures SlotsAt(all, 0, active) == LiveExcept(all[..active], {})
  {
  }

  /** A kill (exchange with the last live position, then shrink) removes
      exactly the killed slot from the live slots. */
  lemma KillRemovesSlot(before: seq<int>, j: int, active: int, after: seq<int>)
    requires IsPermutation(before)
    requires 0 <= j < active <= |before|
    requires after == before[j := before[active - 1]][active - 1 := before[j]]
    ensures SlotsAt(after, 0, active - 1) == SlotsAt(before, 0, active) - {before[j]}
  {
    var lhs := SlotsAt(after, 0, active - 1);
    var rhs := SlotsAt(before, 0, active) - {before[j]};
    forall x | x in lhs
      ensures x in rhs
    {
      var k :| 0 <= k < active - 1 && after[k] == x;
      if k == j {
        assert before[active - 1] == x && before[j] != before[active - 1];
      } else {
        assert before[k] == x && before[j] != before[k];
      }
    }
    forall x | x in rhs
      ensures x in lhs
    {
      var k :| 0 <= k < active && before[k] == x;
      assert k != j;
      if k == active - 1 {
        assert after[j] == x;
      } else {
        assert after[k] == x;
      }
    }
  }

  /** Killing one more untouched position takes its slot out of the live
      set. */
  lemma LiveExceptStep(live: seq<int>, gone: set<int>, i: int)
    requires Distinct(live) && 0 <= i < |live| && i !in gone
    ensures LiveExcept(live, gone + {i}) == LiveExcept(live, gone) - {live[i]}
  {
    forall x | x in LiveExcept(live, gone) - {live[i]}
      ensures x in LiveExcept(live, gone + {i})
    {
      var p :| 0 <= p < |live| && p !in gone && live[p] == x;
      assert p != i;
    }
    forall x | x in LiveExcept(live, gone + {i})
      ensures x != live[i]
    {
      var p :| 0 <= p < |live| && p !in gone + {i} && live[p] == x;
      if p < i {
        assert live[p] != live[i];
      } else {
        assert live[i] != live[p];
      }
    }
  }

  /** Killing the first `n` positions leaves the slots from position `n` on. */
  lemma LiveExceptFront(live: seq<int>, n: int)
    requires 0 <= n <= |live|
    ensures LiveExcept(live, Between(0, n)) == SlotsAt(live, n, |live|)
  {
    forall x | x in SlotsAt(live, n, |live|)
      ensures x in LiveExcept(live, Between(0, n))
    {
      var p :| n <= p < |live| && live[p] == x;
      assert p !in Between(0, n);
    }
  }

  /** The positions from `lo` up to, not including, `hi`. */
  function Between(lo: int, hi: int): (r: set<int>)
    ensures forall p :: p in r <==> lo <= p < hi
    decreases hi - lo
  {
    if hi <= lo then {} else Between(lo, hi - 1) + {hi - 1}
  }
}
