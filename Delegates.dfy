/** The multicast delegate `TDelegate` (Delegates.h): a list of handle-tagged
    handlers and the next handle to issue. A handler is an opaque value of type
    `H`; an empty `std::function` is `None`. */
module Delegates {
  import opened Text

  datatype Entry<H> = Entry(Handle: nat, Handler: Option<H>)

  /** Every handle in the list lies strictly between `lo` and `hi`. */
  ghost predicate HandlesWithin<H>(entries: seq<Entry<H>>, lo: int, hi: int)
  {
    forall i :: 0 <= i < |entries| ==> lo < entries[i].Handle < hi
  }

  /** Handles strictly increase in list order. */
  ghost predicate HandlesIncreasing<H>(entries: seq<Entry<H>>)
  {
    forall i, j :: 0 <= i < j < |entries| ==> entries[i].Handle < entries[j].Handle
  }

  /** Handles in the list are positive, strictly increasing in list order and
      below the next handle to be issued. */
  ghost predicate HandlesOrdered<H>(entries: seq<Entry<H>>, next: nat)
  {
    HandlesWithin(entries, 0, next) && HandlesIncreasing(entries)
  }

  /** The handlers a broadcast calls: the non-empty ones, in list order. */
  function Invoked<H>(entries: seq<Entry<H>>): seq<H>
  {
    if entries == [] then []
    else if entries[0].Handler.Some? then [entries[0].Handler.value] + Invoked(entries[1..])
    else Invoked(entries[1..])
  }

  /** The list after `remove_if` on a handle: the entries with any other handle,
      in their original order. */
  function Without<H>(entries: seq<Entry<H>>, h: nat): seq<Entry<H>>
  {
    if entries == [] then []
    else if entries[0].Handle == h then Without(entries[1..], h)
    else [entries[0]] + Without(entries[1..], h)
  }

  lemma {:induction false} InvokedAppend<H>(entries: seq<Entry<H>>, e: Entry<H>)
    ensures Invoked(entries + [e]) ==
      Invoked(entries) + (if e.Handler.Some? then [e.Handler.value] else [])
  {
    if entries != [] {
      assert (entries + [e])[1..] == entries[1..] + [e];
      InvokedAppend(entries[1..], e);
    }
  }

  lemma {:induction false} WithoutAppend<H>(entries: seq<Entry<H>>, e: Entry<H>, h: nat)
    ensures Without(entries + [e], h) == Without(entries, h) + (if e.Handle == h then [] else [e])
  {
    if entries != [] {
      assert (entries + [e])[1..] == entries[1..] + [e];
      WithoutAppend(entries[1..], e, h);
    }
  }

  /** Removing a handle keeps exactly the entries with other handles, and
      the list never grows. */
  lemma {:induction false} WithoutMeaning<H>(entries: seq<Entry<H>>, h: nat)
    ensures forall e :: e in Without(entries, h) ==> e in entries && e.Handle != h
    ensures forall e :: e in entries && e.Handle != h ==> e in Without(entries, h)
    ensures |Without(entries, h)| <= |entries|
  {
    if entries != [] {
      WithoutMeaning(entries[1..], h);
      assert entries == [entries[0]] + entries[1..];
    }
  }

  /** Removing a handle no entry carries leaves the list as it is. */
  lemma {:induction false} WithoutUnknown<H>(entries: seq<Entry<H>>, h: nat)
    requires forall i :: 0 <= i < |entries| ==> entries[i].Handle != h
    ensures Without(entries, h) == entries
  {
    if entries != [] {
      WithoutUnknown(entries[1..], h);
      assert [entries[0]] + entries[1..] == entries;
    }
  }

  /** Removing a handle keeps the remaining handles within any bounds the
      list kept. */
  lemma {:induction false} WithoutWithin<H>(entries: seq<Entry<H>>, h: nat, lo: int, hi: int)
    requires HandlesWithin(entries, lo, hi)
    ensures HandlesWithin(Without(entries, h), lo, hi)
  {
    if entries != [] {
      WithoutWithin(entries[1..], h, lo, hi);
    }
  }

  /** Removing a handle keeps the handles increasing. */
  lemma {:induction false} WithoutIncreasing<H>(entries: seq<Entry<H>>, h: nat)
    requires HandlesIncreasing(entries)
    ensures HandlesIncreasing(Without(entries, h))
  {
    if entries != [] {
      WithoutIncreasing(entries[1..], h);
      if entries[0].Handle != h {
        assert HandlesWithin(entries[1..], entries[0].Handle, entries[0].Handle + 1 + LargestHandle(entries));
        WithoutWithin(entries[1..], h, entries[0].Handle, entries[0].Handle + 1 + LargestHandle(entries));
      }
    }
  }

  /** An upper bound on the handles of a list. */
  function LargestHandle<H>(entries: seq<Entry<H>>): (m: nat)
    ensures forall i :: 0 <= i < |entries| ==> entries[i].Handle <= m
  {
    if entries == [] then 0
    else var rest := LargestHandle(entries[1..]);
      if entries[0].Handle > rest then entries[0].Handle else rest
  }

  /** Handles are unique, so a removal drops at most one entry. */
  lemma {:induction false} WithoutDropsAtMostOne<H>(entries: seq<Entry<H>>, h: nat)
    requires HandlesIncreasing(entries)
    ensures |entries| - 1 <= |Without(entries, h)|
  {
    if entries != [] {
      if entries[0].Handle == h {
        WithoutUnknown(entries[1..], h);
      } else {
        WithoutDropsAtMostOne(entries[1..], h);
      }
    }
  }

  /** Removal keeps the list ordered and drops at most one entry. */
  lemma WithoutKeepsOrder<H>(entries: seq<Entry<H>>, next: nat, h: nat)
    requires HandlesOrdered(entries, next)
    ensures HandlesOrdered(Without(entries, h), next)
    ensures |entries| - 1 <= |Without(entries, h)|
  {
    WithoutWithin(entries, h, 0, next);
    WithoutIncreasing(entries, h);
    WithoutDropsAtMostOne(entries, h);
  }

  class TDelegate<H> {
    var Handlers: seq<Entry<H>>
    var NextHandle: nat

    ghost predicate Valid()
      reads this
    {
      1 <= NextHandle && HandlesOrdered(Handlers, NextHandle)
    }

    /** Handles start at 1. */
    constructor()
      ensures Valid() && Handlers == [] && NextHandle == 1
    {
      Handlers := [];
      NextHandle := 1;
    }

    /** `Add`: stores the handler under the current handle, which it returns,
        and moves on to the next one. */
    method Add(handler: Option<H>) returns (handle: nat)
      requires Valid()
      modifies this
      ensures Valid()
      ensures handle == old(NextHandle) && handle >= 1
      ensures NextHandle == handle + 1
      ensures Handlers == old(Handlers) + [Entry(handle, handler)]
    {
      handle := NextHandle;
      NextHandle := NextHandle + 1;
      Handlers := Handlers + [Entry(handle, handler)];
    }

    /** `AddDynamic`: the bound member function is never an empty handler. */
    method AddDynamic(handler: H) returns (handle: nat)
      requires Valid()
      modifies this
      ensures Valid()
      ensures handle == old(NextHandle) && handle >= 1
      ensures NextHandle == handle + 1
      ensures Handlers == old(Handlers) + [Entry(handle, Some(handler))]
    {
      handle := Add(Some(handler));
    }

    /** `Broadcast`: the handlers called, in the order they are called. */
    method Broadcast() returns (calls: seq<H>)
      ensures calls == Invoked(Handlers)
    {
      var all := Handlers;
      calls := [];
      var i := 0;
      while i < |all|
        invariant 0 <= i <= |all|
        invariant calls == Invoked(all[..i])
      {
        assert all[..i + 1] == all[..i] + [all[i]];
        InvokedAppend(all[..i], all[i]);
        if all[i].Handler.Some? {
          calls := calls + [all[i].Handler.value];
        }
        i := i + 1;
      }
      assert all[..i] == all;
    }

    /** `Remove`: erases every entry with the handle, keeping the others in
        order; the next handle is untouched. */
    method Remove(h: nat)
      requires Valid()
      modifies this
      ensures Valid()
      ensures Handlers == Without(old(Handlers), h)
      ensures NextHandle == old(NextHandle)
    {
      var all := Handlers;
      var kept: seq<Entry<H>> := [];
      var i := 0;
      while i < |all|
        invariant 0 <= i <= |all|
        invariant kept == Without(all[..i], h)
        invariant Handlers == all && NextHandle == old(NextHandle)
      {
        assert all[..i + 1] == all[..i] + [all[i]];
        WithoutAppend(all[..i], all[i], h);
        if all[i].Handle != h {
          kept := kept + [all[i]];
        }
        i := i + 1;
      }
      assert all[..i] == all;
      WithoutKeepsOrder(all, NextHandle, h);
      Handlers := kept;
    }

    /** `Clear`: empties the list but keeps counting handles, so a handle is
        never issued twice. */
    method Clear()
      requires Valid()
      modifies this
      ensures Valid()
      ensures Handlers == [] && NextHandle == old(NextHandle)
    {
      Handlers := [];
    }
  }

  /** A handle issued by `Add` is larger than every handle still in the list,
      so it is never mistaken for an earlier one. */
  lemma FreshHandleIsNew<H>(entries: seq<Entry<H>>, next: nat)
    requires HandlesOrdered(entries, next)
    ensures forall i :: 0 <= i < |entries| ==> entries[i].Handle != next
  {
  }

  /** Broadcasting after an `Add` calls the earlier handlers first and then the
      new one, when it is not empty. */
  lemma BroadcastAfterAdd<H>(entries: seq<Entry<H>>, handle: nat, handler: Option<H>)
    ensures Invoked(entries + [Entry(handle, handler)]) ==
      Invoked(entries) + (if handler.Some? then [handler.value] else [])
  {
    InvokedAppend(entries, Entry(handle, handler));
  }

  /** Removing the handle an `Add` just returned undoes that `Add`. */
  lemma RemoveUndoesAdd<H>(entries: seq<Entry<H>>, next: nat, handler: Option<H>)
    requires HandlesOrdered(entries, next)
    ensures Without(entries + [Entry(next, handler)], next) == entries
  {
    WithoutAppend(entries, Entry(next, handler), next);
    WithoutUnknown(entries, next);
  }
}
