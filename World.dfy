/** The world's actor bookkeeping (TL2/World.cpp): per-type actor name
    counters, destroying an actor, starting a new scene, and how loading a
    scene reconciles the UUIDs stored in the file with the ones the engine
    issues.

    Actors are handles (`nat`); a null pointer is `None`. The scene file,
    the spawning of actors and the UUIDs their spawning consumes are given
    as parameters. */
module World {
  import opened Text
  import opened ObjectModel

  /** `RemoveObjExtension`: the file name after the last `/` or `\\`,
      without a trailing `.obj` (matched case-sensitively); when the range
      would be empty-inverted the whole input is returned, which cannot
      happen. */
  function RemoveObjExtension(fileName: string): (r: string)
  {
    var start := FileNameStart(fileName);
    var end := if |fileName| >= 4 && fileName[|fileName| - 4..] == ".obj" then |fileName| - 4 else |fileName|;
    if start <= end then fileName[start..end] else fileName
  }

  /** The base name holds no separator; it is the file name with `.obj`
      removed when the path ends with it, and the whole file name
      otherwise. */
  lemma RemoveObjExtensionIsFileStem(fileName: string)
    ensures var r := RemoveObjExtension(fileName);
            (forall k :: 0 <= k < |r| ==> !IsPathSeparator(r[k])) &&
            (EndsWith(fileName, ".obj") ==> r + ".obj" == FileNameOf(fileName)) &&
            (!EndsWith(fileName, ".obj") ==> r == FileNameOf(fileName))
  {
    if EndsWith(fileName, ".obj") {
      ObjHasNoSeparator();
      FileNameKeepsSuffix(fileName, ".obj");
    }
  }

  /** A mesh file `dir/stem.obj` gives the base name `stem`. */
  lemma RemoveObjExtensionOfEntry(dir: string, stem: string)
    requires forall k :: 0 <= k < |stem| ==> !IsPathSeparator(stem[k])
    ensures RemoveObjExtension(dir + "/" + stem + ".obj") == stem
  {
    var path := dir + "/" + stem + ".obj";
    ObjHasNoSeparator();
    forall k | 0 <= k < |stem + ".obj"|
      ensures !IsPathSeparator((stem + ".obj")[k])
    {
      if k >= |stem| {
        assert (stem + ".obj")[k] == ".obj"[k - |stem|];
      }
    }
    assert path == dir + "/" + (stem + ".obj");
    FileNameStartOfDirEntry(dir, stem + ".obj");
    assert path[|path| - 4..] == ".obj";
    assert path[|dir| + 1..|path| - 4] == stem;
  }

  /** A file `dir/name` whose name does not end in `.obj` keeps its whole
      name. */
  lemma RemoveObjExtensionOfOtherEntry(dir: string, name: string)
    requires forall k :: 0 <= k < |name| ==> !IsPathSeparator(name[k])
    requires !EndsWith(name, ".obj")
    ensures RemoveObjExtension(dir + "/" + name) == name
  {
    var path := dir + "/" + name;
    FileNameStartOfDirEntry(dir, name);
    if |name| >= 4 {
      assert path[|path| - 4..] == name[|name| - 4..];
    } else if |path| >= 4 {
      assert path[|path| - 4..][3 - |name|] == '/';
      assert ".obj"[3 - |name|] != '/';
    }
    assert path[|dir| + 1..] == name;
  }

  /** The name `GenerateUniqueActorName` makes for the `n`-th actor of a
      type: the type, an underscore and `n` in decimal. */
  function UniqueActorName(actorType: string, n: nat): string
  {
    actorType + "_" + NatToString(n)
  }

  /** A name says which type and which number it was made from: since the
      number has no underscore, the last underscore separates the two. */
  lemma UniqueActorNameInjective(t1: string, n1: nat, t2: string, n2: nat)
    ensures UniqueActorName(t1, n1) == UniqueActorName(t2, n2) ==> t1 == t2 && n1 == n2
  {
    var s := UniqueActorName(t1, n1);
    if s == UniqueActorName(t2, n2) {
      NoUnderscoreAfter(t1, NatToString(n1));
      NoUnderscoreAfter(t2, NatToString(n2));
      assert s[|t1|] == '_' && s[|t2|] == '_';
      assert t1 == s[..|t1|] == t2;
      assert NatToString(n1) == s[|t1| + 1..] == NatToString(n2);
      DigitsValueOfNatToString(n1);
      DigitsValueOfNatToString(n2);
    }
  }

  /** No underscore follows the one before a name's number. */
  lemma NoUnderscoreAfter(t: string, d: string)
    requires forall k :: 0 <= k < |d| ==> IsDigit(d[k])
    ensures forall k :: |t| < k < |t + "_" + d| ==> (t + "_" + d)[k] != '_'
  {
    forall k | |t| < k < |t + "_" + d|
      ensures (t + "_" + d)[k] != '_'
    {
      assert (t + "_" + d)[k] == d[k - |t| - 1];
    }
  }

  /** A primitive of a scene file as the loader sees it: the UUID stored
      for it (0 when none) and the asset path of the mesh its component
      loaded (empty when none). */
  datatype FPrimitiveData = FPrimitiveData(UUID: nat, AssetPath: string)

  /** The name base of a loaded primitive's actor: its mesh's file stem,
      `StaticMesh` when no mesh was loaded. */
  function BaseNameOf(p: FPrimitiveData): string
  {
    if p.AssetPath != "" then RemoveObjExtension(p.AssetPath) else "StaticMesh"
  }

  /** How many of the first `i` primitives have the name base `b`. */
  function Before(baseOf: FPrimitiveData -> string, prims: seq<FPrimitiveData>, i: nat, b: string): nat
    requires i <= |prims|
  {
    if i == 0 then 0 else Before(baseOf, prims, i - 1, b) + (if baseOf(prims[i - 1]) == b then 1 else 0)
  }

  /** A later primitive of the same base has counted one more. */
  lemma {:induction false} BeforeGrows(baseOf: FPrimitiveData -> string, prims: seq<FPrimitiveData>, i: nat, j: nat)
    requires i < j <= |prims|
    ensures Before(baseOf, prims, i, baseOf(prims[i])) < Before(baseOf, prims, j, baseOf(prims[i]))
  {
    if j > i + 1 {
      BeforeGrows(baseOf, prims, i, j - 1);
    }
  }

  /** The largest of a sequence of UUIDs, 0 for none. */
  function MaxOf(s: seq<nat>): (m: nat)
    ensures forall k :: 0 <= k < |s| ==> s[k] <= m
    ensures s == [] || m in s
  {
    if s == [] then 0
    else
      var front := MaxOf(s[..|s| - 1]);
      if front >= s[|s| - 1] then front else s[|s| - 1]
  }

  function Max3(a: nat, b: nat, c: nat): (m: nat)
    ensures m >= a && m >= b && m >= c && (m == a || m == b || m == c)
  {
    if a >= b && a >= c then a else if b >= c then b else c
  }

  /** The engine issues fresh UUIDs to the spawned actors: distinct, unlike
      those of the editor actors, and unlike any stored in the file. */
  predicate FreshSpawns(used: set<nat>, prims: seq<FPrimitiveData>, spawned: seq<nat>)
  {
    (forall i, j :: 0 <= i < j < |spawned| ==> spawned[i] != spawned[j]) &&
    (forall i :: 0 <= i < |spawned| ==> spawned[i] !in used) &&
    (forall i, j :: 0 <= i < |spawned| && 0 <= j < |prims| ==> spawned[i] != prims[j].UUID)
  }

  /** The UUID reconciliation rule: the file's UUID is taken when it is
      set and not in use yet by an editor actor or an earlier actor of the
      scene; otherwise the spawned one is kept. */
  predicate AdoptsFileUUID(used: set<nat>, prims: seq<FPrimitiveData>, uuids: seq<nat>, k: nat)
    requires k < |prims| && k <= |uuids|
  {
    prims[k].UUID != 0 && prims[k].UUID !in used && forall m :: 0 <= m < k ==> uuids[m] != prims[k].UUID
  }

  /** The counter after step [2] of `LoadScene`: never below its value
      before, and never below the file's next UUID when the file has one. */
  function AdoptedNext(current: nat, fileNext: Option<nat>): (r: nat)
    ensures r >= current && (fileNext.Some? ==> r >= fileNext.value)
    ensures r == current || (fileNext.Some? && r == fileNext.value)
  {
    if fileNext.Some? && fileNext.value > current then fileNext.value else current
  }

  /** The spawns of `LoadScene` draw UUIDs from the counter, one per object
      they construct: after `draws` of them the counter has advanced that
      many times, wrapping as a `uint32`. */
  method DrawUUIDs(counter: UUIDCounter, draws: nat)
    requires counter.Valid()
    modifies counter
    ensures counter.Valid() && counter.Next == Advance(old(counter.Next), draws)
  {
    var i := 0;
    while i < draws
      invariant 0 <= i <= draws && counter.Valid()
      invariant counter.Next == Advance(old(counter.Next), i)
    {
      var uuid := counter.GenerateUUID();
      AdvanceStep(old(counter.Next), i);
      i := i + 1;
    }
  }

  /** Without wrap-around the counter after the draws is at least the
      adopted value, hence at least the file's next UUID. */
  lemma DrawsKeepFileNext(current: nat, fileNext: Option<nat>, draws: nat)
    requires fileNext.Some? && AdoptedNext(current, fileNext) + draws < UUID_MODULUS
    ensures Advance(AdoptedNext(current, fileNext), draws) >= fileNext.value
  {
  }

  /** Step [2] of `LoadScene`: the file's next UUID is applied only when it
      is above the counter, so the counter never goes down. */
  method AdoptFileNextUUID(counter: UUIDCounter, fileNext: Option<nat>)
    requires counter.Valid()
    requires fileNext.Some? ==> fileNext.value < UUID_MODULUS
    modifies counter
    ensures counter.Valid()
    ensures counter.Next == if fileNext.Some? && fileNext.value > old(counter.Next) then fileNext.value else old(counter.Next)
    ensures counter.Next >= old(counter.Next)
    ensures counter.Next == AdoptedNext(old(counter.Next), fileNext)
  {
    if fileNext.Some? {
      var current := counter.PeekNextUUID();
      if fileNext.value > current {
        counter.SetNextUUID(fileNext.value);
      }
    }
  }

  /** The counter of a type, as `ObjectTypeCounts[ActorType]` reads it:
      0 when the type has none. */
  function CountIn(counts: map<string, nat>, actorType: string): nat
  {
    if actorType in counts then counts[actorType] else 0
  }

  /** The last step of `LoadScene`: the counter is set to the largest of
      its value during the load, one past the largest UUID given out
      (wrapping as a `uint32` does) and its value before the load. */
  method RaiseCounterPastLoad(counter: UUIDCounter, uuids: seq<nat>, duringLoadNext: nat, preLoad: nat)
    requires forall k :: 0 <= k < |uuids| ==> uuids[k] < UUID_MODULUS
    requires duringLoadNext < UUID_MODULUS && preLoad < UUID_MODULUS
    modifies counter
    ensures counter.Valid()
    ensures counter.Next == Max3(duringLoadNext, (MaxOf(uuids) + 1) % UUID_MODULUS, preLoad)
    ensures counter.Next >= preLoad && counter.Next >= duringLoadNext
    ensures MaxOf(uuids) + 1 < UUID_MODULUS ==> forall k :: 0 <= k < |uuids| ==> uuids[k] < counter.Next
  {
    MaxBelow(uuids);
    var safe := Max3(duringLoadNext, (MaxOf(uuids) + 1) % UUID_MODULUS, preLoad);
    counter.SetNextUUID(safe);
  }

  class UWorld {
    var Actors: seq<nat>
    /** How many actors of each name base were named; a missing entry
        counts as 0. */
    var ObjectTypeCounts: map<string, nat>

    constructor ()
      ensures Actors == [] && ObjectTypeCounts == map[]
    {
      Actors := [];
      ObjectTypeCounts := map[];
    }

    /** `GenerateUniqueActorName`: the type's counter is used for the name
        and then advanced, so no two calls for the same type without a
        reset give the same name (`UniqueActorNameInjective`). */
    method GenerateUniqueActorName(actorType: string) returns (name: string)
      modifies this`ObjectTypeCounts
      ensures name == UniqueActorName(actorType, CountIn(old(ObjectTypeCounts), actorType))
      ensures ObjectTypeCounts == old(ObjectTypeCounts)[actorType := CountIn(old(ObjectTypeCounts), actorType) + 1]
    {
      var current := CountIn(ObjectTypeCounts, actorType);
      name := actorType + "_" + NatToString(current);
      ObjectTypeCounts := ObjectTypeCounts[actorType := current + 1];
    }

    /** `DestroyActor`: false for null and for an actor not in the list;
        otherwise its first entry leaves the list, the rest keeping their
        order. */
    method DestroyActor(actor: Option<nat>) returns (ok: bool)
      modifies this`Actors
      ensures ok <==> actor.Some? && actor.value in old(Actors)
      ensures !ok ==> Actors == old(Actors)
      ensures ok ==> exists i :: 0 <= i < |old(Actors)| && old(Actors)[i] == actor.value &&
                       actor.value !in old(Actors)[..i] && Actors == old(Actors)[..i] + old(Actors)[i + 1..]
      ensures ok ==> multiset(Actors) == multiset(old(Actors)) - multiset{actor.value}
    {
      if actor.None? {
        return false;
      }
      var i := IndexOf(Actors, actor.value);
      if i == |Actors| {
        return false;
      }
      assert Actors == Actors[..i] + [Actors[i]] + Actors[i + 1..];
      Actors := Actors[..i] + Actors[i + 1..];
      ok := true;
    }

    /** `CreateNewScene`: no actors, and every type's numbering starts at
        0 again. */
    method CreateNewScene()
      modifies this
      ensures Actors == [] && ObjectTypeCounts == map[]
      ensures forall t :: CountIn(ObjectTypeCounts, t) == 0
    {
      Actors := [];
      ObjectTypeCounts := map[];
    }

    /** The primitive loop of `LoadScene`: each actor gets the UUID of the
        reconciliation rule and a name numbered after the earlier actors
        of the same base. `used` is the set of the editor actors' UUIDs and
        `spawned` the UUIDs the spawns were issued. */
    method SpawnPrimitives(baseOf: FPrimitiveData -> string, used: set<nat>, prims: seq<FPrimitiveData>, spawned: seq<nat>)
      returns (uuids: seq<nat>, names: seq<string>)
      requires |spawned| == |prims|
      modifies this`ObjectTypeCounts
      ensures |uuids| == |prims| && Reconciled(used, prims, spawned, uuids)
      ensures |names| == |prims| && NamedInOrder(UniqueActorName, baseOf, old(ObjectTypeCounts), prims, names)
      ensures CountedFrom(baseOf, old(ObjectTypeCounts), prims, |prims|, ObjectTypeCounts)
    {
      ghost var counts0 := ObjectTypeCounts;
      var usedSet := used;
      uuids, names := [], [];
      var i := 0;
      while i < |prims|
        invariant 0 <= i <= |prims| && |uuids| == i && |names| == i
        invariant Reconciled(used, prims, spawned, uuids)
        invariant FreshSpawns(used, prims, spawned) ==> forall x :: x in usedSet <==> x in used || x in uuids
        invariant NamedInOrder(UniqueActorName, baseOf, counts0, prims, names)
        invariant CountedFrom(baseOf, counts0, prims, i, ObjectTypeCounts)
      {
        var a := spawned[i];
        usedSet := usedSet + {a};
        var fileId := prims[i].UUID;
        var adopt := fileId != 0 && fileId !in usedSet;
        if adopt {
          usedSet := usedSet - {a};
          a := fileId;
          usedSet := usedSet + {a};
        }
        ReconcileStep(used, prims, spawned, uuids, a, adopt);
        ghost var counts := ObjectTypeCounts;
        var name := GenerateUniqueActorName(baseOf(prims[i]));
        NamedInOrderStep(UniqueActorName, baseOf, counts0, prims, names, counts, name);
        CountedStep(baseOf, counts0, prims, i, counts);
        uuids := uuids + [a];
        names := names + [name];
        i := i + 1;
      }
    }

    /** `LoadScene`'s handling of UUIDs and names. The file's next UUID,
        the primitives, the UUIDs their spawns were issued, the actors
        spawning added, the editor actors' UUIDs and the number `draws` of
        UUIDs the spawns drew from the counter (one per object they
        construct) are what the engine provides. The counter is raised to
        the file's next UUID when that is larger, advanced once per draw,
        and then never goes down: it ends at the largest of its value
        during the load, one past the largest UUID given out (wrapping as a
        `uint32` does) and its value before the load. Without wrap-around it
        therefore never ends below the file's next UUID. */
    method LoadScene(counter: UUIDCounter, fileNext: Option<nat>, prims: seq<FPrimitiveData>, spawned: seq<nat>,
                     spawnedActors: seq<nat>, used: set<nat>, draws: nat)
      returns (uuids: seq<nat>, names: seq<string>)
      requires counter.Valid()
      requires fileNext.Some? ==> fileNext.value < UUID_MODULUS
      requires |spawned| == |prims|
      requires forall k :: 0 <= k < |prims| ==> prims[k].UUID < UUID_MODULUS && spawned[k] < UUID_MODULUS
      modifies this, counter
      ensures counter.Valid()
      ensures counter.Next == Max3(Advance(AdoptedNext(old(counter.Next), fileNext), draws),
                                   (MaxOf(uuids) + 1) % UUID_MODULUS, old(counter.Next))
      ensures counter.Next >= old(counter.Next)
      ensures counter.Next >= Advance(AdoptedNext(old(counter.Next), fileNext), draws)
      ensures fileNext.Some? && AdoptedNext(old(counter.Next), fileNext) + draws < UUID_MODULUS ==>
        counter.Next >= fileNext.value
      ensures MaxOf(uuids) + 1 < UUID_MODULUS ==> forall k :: 0 <= k < |uuids| ==> uuids[k] < counter.Next
      ensures Actors == spawnedActors
      ensures |uuids| == |prims| && Reconciled(used, prims, spawned, uuids)
      ensures |names| == |prims| && NamedInOrder(UniqueActorName, BaseNameOf, map[], prims, names)
      ensures forall i, j :: 0 <= i < j < |names| ==> names[i] != names[j]
    {
      var preLoad := counter.PeekNextUUID();
      AdoptFileNextUUID(counter, fileNext);
      var adopted := counter.PeekNextUUID();
      CreateNewScene();
      uuids, names := SpawnPrimitives(BaseNameOf, used, prims, spawned);
      DrawUUIDs(counter, draws);
      var duringLoadNext := counter.PeekNextUUID();
      Actors := spawnedActors;
      NamesDistinct(BaseNameOf, map[], prims, names);
      RaiseCounterPastLoad(counter, uuids, duringLoadNext, preLoad);
      if fileNext.Some? && adopted + draws < UUID_MODULUS {
        DrawsKeepFileNext(preLoad, fileNext, draws);
      }
    }
  }

  /** The first index of `x` in `s`, `|s|` when it is absent (`std::find`). */
  function IndexOf(s: seq<nat>, x: nat): (i: nat)
    ensures i <= |s| && x !in s[..i]
    ensures i < |s| ==> s[i] == x
    ensures i == |s| ==> x !in s
  {
    if s == [] then 0
    else if s[0] == x then 0
    else
      var j := IndexOf(s[1..], x);
      assert s[..j + 1] == [s[0]] + s[1..][..j];
      j + 1
  }

  /** Every UUID given out is a `uint32`, and so is their maximum. */
  lemma MaxBelow(uuids: seq<nat>)
    requires forall k :: 0 <= k < |uuids| ==> uuids[k] < UUID_MODULUS
    ensures MaxOf(uuids) < UUID_MODULUS
    ensures MaxOf(uuids) + 1 < UUID_MODULUS ==>
              forall k :: 0 <= k < |uuids| ==> uuids[k] < (MaxOf(uuids) + 1) % UUID_MODULUS
  {
    if MaxOf(uuids) + 1 < UUID_MODULUS {
      assert (MaxOf(uuids) + 1) % UUID_MODULUS == MaxOf(uuids) + 1;
    }
  }

  /** The UUIDs of the first `|uuids|` actors of a load: each is the
      file's or the spawned one, and when the spawns were fresh they follow
      the reconciliation rule, none is an editor actor's and no two are
      equal. */
  predicate Reconciled(used: set<nat>, prims: seq<FPrimitiveData>, spawned: seq<nat>, uuids: seq<nat>)
  {
    |uuids| <= |prims| && |uuids| <= |spawned| &&
    (forall k :: 0 <= k < |uuids| ==> uuids[k] == prims[k].UUID || uuids[k] == spawned[k]) &&
    (FreshSpawns(used, prims, spawned) ==>
       (forall k :: 0 <= k < |uuids| ==>
          uuids[k] == if AdoptsFileUUID(used, prims, uuids, k) then prims[k].UUID else spawned[k]) &&
       (forall k :: 0 <= k < |uuids| ==> uuids[k] !in used) &&
       (forall i, j :: 0 <= i < j < |uuids| ==> uuids[i] != uuids[j]))
  }

  /** The names of the first `|names|` actors of a load, starting from the
      counters `counts0`: each is its base numbered after the earlier
      actors of that base. */
  ghost predicate NamedInOrder<Name>(nameOf: (string, nat) -> Name, baseOf: FPrimitiveData -> string, counts0: map<string, nat>,
                                     prims: seq<FPrimitiveData>, names: seq<Name>)
  {
    |names| <= |prims| &&
    forall k :: 0 <= k < |names| ==> names[k] == nameOf(baseOf(prims[k]), NameNumber(baseOf, counts0, prims, k))
  }

  /** The number in the name of actor `k` of a load: its base's counter
      before the load plus the earlier actors of that base. */
  function NameNumber(baseOf: FPrimitiveData -> string, counts0: map<string, nat>, prims: seq<FPrimitiveData>, k: nat): nat
    requires k < |prims|
  {
    CountIn(counts0, baseOf(prims[k])) + Before(baseOf, prims, k, baseOf(prims[k]))
  }

  /** The counters after naming the first `i` actors of a load, starting
      from `counts0`. */
  ghost predicate CountedFrom(baseOf: FPrimitiveData -> string, counts0: map<string, nat>, prims: seq<FPrimitiveData>,
                              i: nat, counts: map<string, nat>)
    requires i <= |prims|
  {
    forall b :: CountIn(counts, b) == CountIn(counts0, b) + Before(baseOf, prims, i, b)
  }

  /** Naming one more actor keeps the names in order. */
  lemma NamedInOrderStep<Name>(nameOf: (string, nat) -> Name, baseOf: FPrimitiveData -> string, counts0: map<string, nat>,
                               prims: seq<FPrimitiveData>, names: seq<Name>, counts: map<string, nat>, name: Name)
    requires NamedInOrder(nameOf, baseOf, counts0, prims, names) && |names| < |prims|
    requires CountedFrom(baseOf, counts0, prims, |names|, counts)
    requires name == nameOf(baseOf(prims[|names|]), CountIn(counts, baseOf(prims[|names|])))
    ensures NamedInOrder(nameOf, baseOf, counts0, prims, names + [name])
  {
    var i := |names|;
    var names' := names + [name];
    forall k | 0 <= k < |names'|
      ensures names'[k] == nameOf(baseOf(prims[k]), NameNumber(baseOf, counts0, prims, k))
    {
      if k < i {
        assert names'[k] == names[k];
      } else {
        var base := baseOf(prims[i]);
        assert CountIn(counts, base) == CountIn(counts0, base) + Before(baseOf, prims, i, base);
      }
    }
  }

  /** The names of one load are pairwise distinct, whatever the counters
      were before it: two actors of one base get different numbers. */
  lemma NamesDistinct(baseOf: FPrimitiveData -> string, counts0: map<string, nat>, prims: seq<FPrimitiveData>, names: seq<string>)
    requires NamedInOrder(UniqueActorName, baseOf, counts0, prims, names)
    ensures forall i, j :: 0 <= i < j < |names| ==> names[i] != names[j]
  {
    forall i, j | 0 <= i < j < |names|
      ensures names[i] != names[j]
    {
      if baseOf(prims[i]) == baseOf(prims[j]) {
        BeforeGrows(baseOf, prims, i, j);
      }
      UniqueActorNameInjective(baseOf(prims[i]), NameNumber(baseOf, counts0, prims, i),
                               baseOf(prims[j]), NameNumber(baseOf, counts0, prims, j));
    }
  }

  /** Advancing the counter of the next actor's base counts it. */
  lemma CountedStep(baseOf: FPrimitiveData -> string, counts0: map<string, nat>, prims: seq<FPrimitiveData>,
                    i: nat, counts: map<string, nat>)
    requires i < |prims| && CountedFrom(baseOf, counts0, prims, i, counts)
    ensures CountedFrom(baseOf, counts0, prims, i + 1, counts[baseOf(prims[i]) := CountIn(counts, baseOf(prims[i])) + 1])
  {
    var base := baseOf(prims[i]);
    var counts' := counts[base := CountIn(counts, base) + 1];
    forall b
      ensures CountIn(counts', b) == CountIn(counts0, b) + Before(baseOf, prims, i + 1, b)
    {
    }
  }

  /** One turn of the reconciliation loop: the chosen UUID keeps the
      UUIDs reconciled. */
  lemma ReconcileStep(used: set<nat>, prims: seq<FPrimitiveData>, spawned: seq<nat>, uuids: seq<nat>, a: nat, adopt: bool)
    requires |spawned| == |prims| && |uuids| < |prims|
    requires Reconciled(used, prims, spawned, uuids)
    requires a == if adopt then prims[|uuids|].UUID else spawned[|uuids|]
    requires FreshSpawns(used, prims, spawned) ==>
               (adopt <==> prims[|uuids|].UUID != 0 && prims[|uuids|].UUID !in used &&
                           prims[|uuids|].UUID != spawned[|uuids|] && prims[|uuids|].UUID !in uuids)
    ensures Reconciled(used, prims, spawned, uuids + [a])
  {
    var i := |uuids|;
    var u := uuids + [a];
    if FreshSpawns(used, prims, spawned) {
      if !adopt {
        forall k | 0 <= k < i
          ensures uuids[k] != spawned[i]
        {
          assert spawned[k] != spawned[i] && spawned[i] != prims[k].UUID;
        }
      }
      forall k | 0 <= k < i
        ensures AdoptsFileUUID(used, prims, u, k) == AdoptsFileUUID(used, prims, uuids, k)
      {
        assert forall m :: 0 <= m < k ==> u[m] == uuids[m];
      }
    }
  }
}
