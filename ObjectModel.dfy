/** The object runtime's type descriptors, class registry, UUID counter and
    checked cast (Object.h). A type descriptor names its super descriptor; the
    chain ends at `UObject`, whose super is null. */
module ObjectModel {

  /** 2^32: the UUID counter is a `uint32` and wraps around. */
  const UUID_MODULUS: int := 0x1_0000_0000

  /** `UClass`: a name, the super descriptor and the instance size, all fixed
      at construction. `Depth` is the length of the super chain; it only
      serves to show that walking the chain ends. */
  class UClass {
    const Name: string
    const Super: UClass?
    const Size: nat
    ghost const Depth: nat

    /** A descriptor is well formed when its super descriptor is, one level
        less deep. Every descriptor built by the constructor is. */
    ghost predicate WellFormed()
      decreases Depth
    {
      Super == null || (Super.Depth < Depth && Super.WellFormed())
    }

    constructor(n: string, s: UClass?, z: nat)
      requires s == null || s.WellFormed()
      ensures Name == n && Super == s && Size == z
      ensures WellFormed()
    {
      Name := n;
      Super := s;
      Size := z;
      Depth := if s == null then 0 else s.Depth + 1;
    }

    /** `base` lies on the chain that starts at this descriptor. */
    ghost predicate DescendsFrom(base: UClass)
      requires WellFormed()
      decreases Depth
    {
      this == base || (Super != null && Super.DescendsFrom(base))
    }

    /** `IsChildOf`: false for a null base, otherwise walks the super chain
        from this descriptor looking for the base. */
    method IsChildOf(base: UClass?) returns (r: bool)
      requires WellFormed()
      ensures r <==> base != null && DescendsFrom(base)
    {
      if base == null {
        return false;
      }
      var c: UClass? := this;
      while c != null
        invariant c != null ==> c.WellFormed()
        invariant DescendsFrom(base) <==> c != null && c.DescendsFrom(base)
        decreases if c == null then 0 else c.Depth + 1
      {
        if c == base {
          return true;
        }
        c := c.Super;
      }
      return false;
    }
  }

  /** Every descriptor is a child of itself. */
  lemma ChildOfReflexive(c: UClass)
    requires c.WellFormed()
    ensures c.DescendsFrom(c)
  {
  }

  /** Being a child is transitive: A ⊑ B and B ⊑ C give A ⊑ C. */
  lemma {:induction false} ChildOfTransitive(a: UClass, b: UClass, c: UClass)
    requires a.WellFormed() && b.WellFormed()
    requires a.DescendsFrom(b) && b.DescendsFrom(c)
    ensures a.DescendsFrom(c)
    decreases a.Depth
  {
    if a != b {
      ChildOfTransitive(a.Super, b, c);
    }
  }

  /** An ancestor's chain is never longer, and a proper ancestor's is
      strictly shorter. */
  lemma {:induction false} ChildOfDepth(a: UClass, b: UClass)
    requires a.WellFormed() && a.DescendsFrom(b)
    ensures b.Depth <= a.Depth
    ensures a != b ==> b.Depth < a.Depth
    decreases a.Depth
  {
    if a != b {
      ChildOfDepth(a.Super, b);
    }
  }

  /** Two distinct descriptors are never children of each other, so the
      super chain has no cycle. */
  lemma ChildOfAntisymmetric(a: UClass, b: UClass)
    requires a.WellFormed() && b.WellFormed()
    requires a.DescendsFrom(b) && b.DescendsFrom(a)
    ensures a == b
  {
    ChildOfDepth(a, b);
    ChildOfDepth(b, a);
  }

  /** The position of the first descriptor called `name`, or `|all|`. */
  function FirstNamed(all: seq<UClass>, name: string): (k: nat)
    ensures k <= |all|
    ensures k < |all| ==> all[k].Name == name
    ensures forall j :: 0 <= j < k ==> all[j].Name != name
  {
    if all == [] then 0
    else if all[0].Name == name then 0
    else 1 + FirstNamed(all[1..], name)
  }

  /** The process-wide list of registered descriptors (`GetAllClasses`). A
      descriptor is signed up every time its `StaticClass` runs, so the list
      may hold repeats. */
  class ClassRegistry {
    var AllClasses: seq<UClass>

    constructor()
      ensures AllClasses == []
    {
      AllClasses := [];
    }

    /** `SignUpClass`: appends a non-null descriptor; a null one is ignored. */
    method SignUpClass(c: UClass?)
      modifies this
      ensures c == null ==> AllClasses == old(AllClasses)
      ensures c != null ==> AllClasses == old(AllClasses) + [c]
    {
      if c != null {
        AllClasses := AllClasses + [c];
      }
    }

    /** `FindClass`: the first registered descriptor with the given name, or
        null when there is none. */
    method FindClass(name: string) returns (r: UClass?)
      ensures r == null <==> forall i :: 0 <= i < |AllClasses| ==> AllClasses[i].Name != name
      ensures r != null ==> r == AllClasses[FirstNamed(AllClasses, name)] && r.Name == name
    {
      var i := 0;
      while i < |AllClasses|
        invariant 0 <= i <= |AllClasses|
        invariant forall j :: 0 <= j < i ==> AllClasses[j].Name != name
        invariant i <= FirstNamed(AllClasses, name)
      {
        if AllClasses[i].Name == name {
          return AllClasses[i];
        }
        i := i + 1;
      }
      return null;
    }
  }

  /** Finding a name in a list with one more descriptor at the end: the old
      answer when the name was already there, else the new descriptor when it
      has the name, else nothing. */
  lemma {:induction false} FirstNamedAppend(all: seq<UClass>, c: UClass, name: string)
    ensures FirstNamed(all + [c], name) ==
      if FirstNamed(all, name) < |all| then FirstNamed(all, name)
      else if c.Name == name then |all|
      else |all| + 1
  {
    if all != [] {
      assert (all + [c])[1..] == all[1..] + [c];
      FirstNamedAppend(all[1..], c, name);
    }
  }

  /** After signing up a descriptor, a descriptor of its name is always
      found: an earlier one of the same name, or the new one. */
  lemma SignUpThenFind(all: seq<UClass>, c: UClass)
    ensures FirstNamed(all + [c], c.Name) < |all + [c]|
    ensures FirstNamed(all, c.Name) == |all| ==> (all + [c])[FirstNamed(all + [c], c.Name)] == c
    ensures FirstNamed(all, c.Name) < |all| ==> FirstNamed(all + [c], c.Name) == FirstNamed(all, c.Name)
  {
    FirstNamedAppend(all, c, c.Name);
  }

  /** The UUID issuer: a `uint32` counter that starts at 1. */
  class UUIDCounter {
    var Next: int

    ghost predicate Valid()
      reads this
    {
      0 <= Next < UUID_MODULUS
    }

    constructor()
      ensures Valid() && Next == 1
    {
      Next := 1;
    }

    /** `PeekNextUUID`: the value the next `GenerateUUID` returns. */
    method PeekNextUUID() returns (r: int)
      requires Valid()
      ensures r == Next && 0 <= r < UUID_MODULUS
    {
      r := Next;
    }

    /** `SetNextUUID`. */
    method SetNextUUID(n: int)
      requires 0 <= n < UUID_MODULUS
      modifies this
      ensures Valid() && Next == n
    {
      Next := n;
    }

    /** `GenerateUUID`: returns the counter, then advances it with 32-bit
        wrap-around. */
    method GenerateUUID() returns (id: int)
      requires Valid()
      modifies this
      ensures Valid()
      ensures id == old(Next)
      ensures Next == Advance(old(Next), 1)
    {
      id := Next;
      Next := (Next + 1) % UUID_MODULUS;
    }
  }

  /** The counter after `k` UUIDs were issued from `n`. */
  function Advance(n: int, k: nat): (r: int)
    ensures 0 <= r < UUID_MODULUS
  {
    (n + k) % UUID_MODULUS
  }

  /** Issuing one UUID after `k` is the same as issuing `k + 1`. */
  lemma AdvanceStep(n: int, k: nat)
    ensures Advance(Advance(n, k), 1) == Advance(n, k + 1)
  {
  }

  /** Fewer than 2^32 successive UUIDs are pairwise distinct: the counter
      repeats only after a full wrap-around. */
  lemma {:induction false} AdvanceDistinct(n: int, i: nat, j: nat)
    requires 0 <= n < UUID_MODULUS
    requires i < j < UUID_MODULUS
    ensures Advance(n, i) != Advance(n, j)
  {
  }

  /** `UObject`: its runtime type descriptor and the UUID it was issued. */
  class UObject {
    const Class: UClass
    const UUID: int

    constructor(cls: UClass, counter: UUIDCounter)
      requires counter.Valid()
      modifies counter
      ensures Class == cls && UUID == old(counter.Next)
      ensures counter.Valid() && counter.Next == Advance(old(counter.Next), 1)
    {
      Class := cls;
      UUID := counter.Next;
      counter.Next := (counter.Next + 1) % UUID_MODULUS;
    }

    /** `IsA`: the object's descriptor is a child of `c`. */
    method IsA(c: UClass?) returns (r: bool)
      requires Class.WellFormed()
      ensures r <==> c != null && Class.DescendsFrom(c)
    {
      r := Class.IsChildOf(c);
    }
  }

  /** `Cast<T>`: the object itself when it is non-null and an instance of the
      target descriptor, otherwise null. */
  method Cast(obj: UObject?, target: UClass) returns (r: UObject?)
    requires obj != null ==> obj.Class.WellFormed()
    ensures r != null <==> obj != null && obj.Class.DescendsFrom(target)
    ensures r != null ==> r == obj
  {
    if obj == null {
      return null;
    }
    var isA := obj.IsA(target);
    r := if isA then obj else null;
  }

  /** Casting never moves down the hierarchy: the result of a cast to a
      descriptor is also an instance of every ancestor of that descriptor. */
  lemma CastUpward(obj: UObject, target: UClass, ancestor: UClass)
    requires obj.Class.WellFormed() && target.WellFormed()
    requires obj.Class.DescendsFrom(target) && target.DescendsFrom(ancestor)
    ensures obj.Class.DescendsFrom(ancestor)
  {
    ChildOfTransitive(obj.Class, target, ancestor);
  }
}
