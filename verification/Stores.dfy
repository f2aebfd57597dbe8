/**
 The data store's doubly linked list of members and the sweep that removes unused ones.
 */
module Stores {
  import opened Sequences
  import opened MemberPtrs

  // ---------- sequences of elements ----------

  /** The element at a position, or null outside the sequence. */
  ghost function At(s: seq<Element>, i: int): Element? {
    if 0 <= i < |s| then s[i] else null
  }

  /** The elements are linked in this order, in both directions, with nothing before or after. */
  ghost predicate Linked(s: seq<Element>)
    reads s
  {
    && Distinct(s)
    && (forall i {:trigger s[i].prev} :: 0 <= i < |s| ==> s[i].prev == At(s, i - 1))
    && (forall i {:trigger s[i].next} :: 0 <= i < |s| ==> s[i].next == At(s, i + 1))
  }

  /** Which elements are in use. */
  ghost function Flags(s: seq<Element>): (f: seq<bool>)
    reads set e | e in s :: e.useCounter
    ensures |f| == |s|
    ensures forall i :: 0 <= i < |s| ==> f[i] == (s[i].useCounter.value > 0)
  {
    if s == [] then []
    else
      var n := |s| - 1;
      var f := Flags(s[..n]);
      assert forall i :: 0 <= i < n ==> s[..n][i] == s[i];
      f + [s[n].useCounter.value > 0]
  }

  ghost predicate FlagsFit(s: seq<Element>, flags: seq<bool>)
    reads set e | e in s :: e.useCounter
  {
    |s| == |flags| && forall i :: 0 <= i < |s| ==> flags[i] == (s[i].useCounter.value > 0)
  }

  lemma FlagsFitNow(s: seq<Element>)
    ensures FlagsFit(s, Flags(s))
  {
    hide Flags;
  }

  lemma FlagFitsAt(s: seq<Element>, flags: seq<bool>, i: nat)
    requires FlagsFit(s, flags) && i < |s|
    ensures |s| == |flags| && flags[i] == (s[i].useCounter.value > 0)
  {
  }

  /** The first and the last element, if there are any, are in use. */
  ghost predicate EndsInUse(s: seq<Element>)
    reads set e | e in s :: e.useCounter
  {
    s == [] || (s[0].useCounter.value > 0 && s[|s| - 1].useCounter.value > 0)
  }

  /** The elements whose flag is set, in order. */
  ghost function InUse(s: seq<Element>, flags: seq<bool>): seq<Element>
    requires |s| == |flags|
  {
    if s == [] then []
    else
      var n := |s| - 1;
      InUse(s[..n], flags[..n]) + if flags[n] then [s[n]] else []
  }

  /** The request ids of the elements whose flag is not set, in order. */
  ghost function UnusedIds(s: seq<Element>, flags: seq<bool>): seq<nat>
    requires |s| == |flags|
  {
    if s == [] then []
    else
      var n := |s| - 1;
      UnusedIds(s[..n], flags[..n]) + if flags[n] then [] else [s[n].requestId]
  }

  /** A list swept up to a position: the part behind filtered, the part ahead untouched. */
  ghost function SweptTo(s: seq<Element>, flags: seq<bool>, n: nat): seq<Element>
    requires |s| == |flags| && n <= |s|
  {
    InUse(s[..n], flags[..n]) + s[n..]
  }

  lemma AtBounds(s: seq<Element>, i: nat)
    requires i <= |s|
    ensures At(s, i) == null <==> i == |s|
    ensures i < |s| ==> At(s, i) == s[i]
  {
  }

  lemma SweptIsPart(s: seq<Element>, flags: seq<bool>, n: nat)
    requires |s| == |flags| && n <= |s|
    ensures forall i :: 0 <= i < |SweptTo(s, flags, n)| ==> SweptTo(s, flags, n)[i] in s
  {
    InUseIsPart(s[..n], flags[..n]);
    var u := InUse(s[..n], flags[..n]);
    forall i | 0 <= i < |SweptTo(s, flags, n)| ensures SweptTo(s, flags, n)[i] in s {
      if i < |u| {
        assert u[i] in u;
      }
    }
  }

  lemma SweptBounds(s: seq<Element>, flags: seq<bool>)
    requires |s| == |flags|
    ensures SweptTo(s, flags, 0) == s && UnusedIds(s[..0], flags[..0]) == []
    ensures SweptTo(s, flags, |s|) == InUse(s, flags)
  {
    assert s[..|s|] == s && flags[..|s|] == flags;
  }

  lemma SweptOneMore(s: seq<Element>, flags: seq<bool>, n: nat)
    requires |s| == |flags| && n < |s|
    ensures var kept := |InUse(s[..n], flags[..n])|;
            && kept < |SweptTo(s, flags, n)| && SweptTo(s, flags, n)[kept] == s[n]
            && SweptTo(s, flags, n + 1)
                 == if flags[n] then SweptTo(s, flags, n) else RemoveAt(SweptTo(s, flags, n), kept)
    ensures UnusedIds(s[..n + 1], flags[..n + 1])
         == UnusedIds(s[..n], flags[..n]) + if flags[n] then [] else [s[n].requestId]
    ensures At(SweptTo(s, flags, n), |InUse(s[..n], flags[..n])| + 1) == At(s, n + 1)
  {
    assert s[..n + 1][..n] == s[..n] && flags[..n + 1][..n] == flags[..n];
    assert s[n..] == [s[n]] + s[n + 1..];
  }

  /** What is where once an element is removed. */
  lemma RemovedPositions(s: seq<Element>, k: nat)
    requires k < |s| && Distinct(s)
    ensures var r := RemoveAt(s, k);
            && |r| == |s| - 1 && Distinct(r)
            && forall i :: 0 <= i < |r| ==> r[i] == if i < k then s[i] else s[i + 1]
  {
  }

  /** All elements but one are linked, past that one, in their order. */
  ghost predicate LinkedPast(s: seq<Element>, k: nat)
    requires k < |s|
    reads s
  {
    && Distinct(s)
    && (forall i {:trigger s[i].prev} :: 0 <= i < |s| && i != k ==>
          s[i].prev == if i == k + 1 then At(s, k - 1) else At(s, i - 1))
    && (forall i {:trigger s[i].next} :: 0 <= i < |s| && i != k ==>
          s[i].next == if i == k - 1 then At(s, k + 1) else At(s, i + 1))
  }

  lemma LinkedAround(s: seq<Element>, k: nat)
    requires k < |s| && LinkedPast(s, k)
    ensures Linked(RemoveAt(s, k))
  {
    var r := RemoveAt(s, k);
    RemovedPositions(s, k);
    hide RemoveAt;
    forall i | 0 <= i < |r| ensures r[i].prev == At(r, i - 1) && r[i].next == At(r, i + 1) {
      assert r[i] == s[if i < k then i else i + 1];
    }
  }

  /** The ends stay the ends exactly when an interior element is removed. */
  lemma RemovedEnds(s: seq<Element>, k: nat)
    requires k < |s| && Distinct(s)
    ensures var r := RemoveAt(s, k);
            At(s, 0) == At(r, 0) && At(s, |s| - 1) == At(r, |r| - 1) <==> 0 < k < |s| - 1
  {
  }

  class DoubleLinkedList {
    var begin: Element?
    var end: Element?
    ghost var elements: seq<Element>

    /** The list's own ends agree with the elements. */
    ghost predicate EndsFit()
      reads this
    {
      begin == At(elements, 0) && end == At(elements, |elements| - 1)
    }

    ghost predicate Valid()
      reads this, elements
    {
      Linked(elements) && EndsFit()
    }

    constructor ()
      ensures Valid() && elements == []
    {
      begin, end, elements := null, null, [];
    }

    method EmplaceBack(primaryKey: string, requestId: nat) returns (it: Element)
      requires Valid()
      modifies this, elements
      ensures Valid() && elements == old(elements) + [it]
      ensures fresh(it) && fresh(it.useCounter)
      ensures it.useCounter.value == 1
      ensures it.primaryKey == primaryKey && it.requestId == requestId
    {
      it := new Element(end, null, primaryKey, requestId);
      if end != null {
        end.next := it;
      } else {
        begin := it;
      }
      end := it;
      elements := elements + [it];
    }

    /** Links the neighbours of an element to each other. */
    method Unlink(it: Element, ghost k: nat) returns (next: Element?)
      requires Linked(elements) && k < |elements| && elements[k] == it
      modifies elements
      ensures Linked(RemoveAt(elements, k)) && next == At(elements, k + 1)
    {
      var prev := it.prev;
      next := it.next;
      if prev != null {
        prev.next := next;
      }
      if next != null {
        next.prev := prev;
      }
      LinkedAround(elements, k);
    }

    /**
     Unlinks an element and returns its successor. The list's ends are not touched, so they fit
     afterwards exactly when the element was neither the first nor the last.
     */
    method Erase(it: Element, ghost k: nat) returns (next: Element?)
      requires Linked(elements) && k < |elements| && elements[k] == it
      modifies this`elements, elements
      ensures elements == RemoveAt(old(elements), k) && Linked(elements)
      ensures next == At(old(elements), k + 1)
      ensures old(EndsFit()) ==> (Valid() <==> 0 < k < |old(elements)| - 1)
    {
      RemovedEnds(elements, k);
      hide RemoveAt, At, Linked;
      next := Unlink(it, k);
      elements := RemoveAt(elements, k);
    }

    /** First element with the key, found by walking from the front. */
    method Find(primaryKey: string) returns (it: Element?, ghost k: nat)
      requires Valid()
      ensures k <= |elements| && forall j :: 0 <= j < k ==> elements[j].primaryKey != primaryKey
      ensures it == null <==> k == |elements|
      ensures it != null ==> elements[k] == it && it.primaryKey == primaryKey
    {
      it, k := begin, 0;
      while it != null
        invariant 0 <= k <= |elements| && it == At(elements, k)
        invariant forall j :: 0 <= j < k ==> elements[j].primaryKey != primaryKey
        decreases |elements| - k
      {
        if it.primaryKey == primaryKey {
          return;
        }
        it, k := it.next, k + 1;
      }
    }

    /** The body of the sweep: step over an entry in use, erase an unused one. */
    method SweepEntry(it: Element, ghost k: nat) returns (next: Element?, removed: bool)
      requires Linked(elements) && k < |elements| && elements[k] == it
      modifies this`elements, elements
      ensures removed <==> it.useCounter.value == 0
      ensures elements == (if removed then RemoveAt(old(elements), k) else old(elements)) && Linked(elements)
      ensures next == At(old(elements), k + 1)
    {
      var inUse := it.useCounter.NonZero();
      removed := !inUse;
      if inUse {
        next := it.next;
      } else {
        next := Erase(it, k);
      }
    }

    /**
     One pass of the collector over the list. Every entry whose counter is zero is unsubscribed once
     and removed, the others stay in order. The list is well formed afterwards exactly when its first
     and last entries were in use.
     */
    method Sweep() returns (unsubscribed: seq<nat>)
      requires Valid()
      modifies this`elements, elements
      ensures elements == InUse(old(elements), old(Flags(elements))) && Linked(elements)
      ensures unsubscribed == UnusedIds(old(elements), old(Flags(elements)))
      ensures Valid() <==> old(EndsInUse(elements))
    {
      hide InUse, UnusedIds, Flags, EndsInUse, At;
      ghost var all, flags := elements, Flags(elements);
      EndsInUseByFlags(all);
      SweptEnds(all, flags);
      unsubscribed := SweepFrom(begin, flags);
    }

    /** The loop of the sweep, from an iterator at the front. */
    method SweepFrom(front: Element?, ghost flags: seq<bool>) returns (unsubscribed: seq<nat>)
      requires Linked(elements) && front == At(elements, 0) && flags == Flags(elements)
      modifies this`elements, elements
      ensures elements == InUse(old(elements), flags) && Linked(elements)
      ensures unsubscribed == UnusedIds(old(elements), flags)
    {
      hide *;
      ghost var all, done := elements, 0;
      var it := front;
      unsubscribed := [];
      SweptBounds(all, flags);
      AtBounds(all, done);
      FlagsFitNow(all);
      while it != null
        invariant 0 <= done <= |all| && it == At(all, done)
        invariant it == null <==> done == |all|
        invariant elements == SweptTo(all, flags, done) && Linked(elements)
        invariant FlagsFit(all, flags)
        invariant unsubscribed == UnusedIds(all[..done], flags[..done])
        decreases |all| - done
      {
        AtBounds(all, done);
        AtBounds(all, done + 1);
        SweptOneMore(all, flags, done);
        ghost var kept := |InUse(all[..done], flags[..done])|;
        SweptIsPart(all, flags, done);
        FlagFitsAt(all, flags, done);
        var id := it.requestId;
        var removed;
        it, removed := SweepEntry(it, kept);
        if removed {
          unsubscribed := unsubscribed + [id];
        }
        done := done + 1;
      }
      assert all[..done] == all && flags[..done] == flags;
    }

    /** The destructor's walk; its two assertions hold on every well-formed list. */
    method Destroy() returns (ghost deleted: seq<Element>)
      requires Valid()
      ensures deleted == elements
    {
      deleted := [];
      var current := begin;
      while current != null
        invariant |deleted| <= |elements| && deleted == elements[..|deleted|]
        invariant current == At(elements, |deleted|)
        decreases |elements| - |deleted|
      {
        var next := current.next;
        if next != null {
          assert next.prev == current;
        } else {
          assert current == end;
        }
        deleted := deleted + [current];
        current := next;
      }
    }
  }

  lemma {:induction false} InUseIsPart(s: seq<Element>, flags: seq<bool>)
    requires |s| == |flags|
    ensures forall e :: e in InUse(s, flags) ==> exists i :: 0 <= i < |s| && s[i] == e && flags[i]
  {
    if s != [] {
      var n := |s| - 1;
      InUseIsPart(s[..n], flags[..n]);
      forall e | e in InUse(s, flags) ensures exists i :: 0 <= i < |s| && s[i] == e && flags[i] {
        if e in InUse(s[..n], flags[..n]) {
          var i :| 0 <= i < n && s[..n][i] == e && flags[..n][i];
          assert s[i] == e && flags[i];
        }
      }
    }
  }

  lemma EndsInUseByFlags(s: seq<Element>)
    ensures EndsInUse(s) <==> s == [] || (Flags(s)[0] && Flags(s)[|s| - 1])
  {
    hide Flags;
  }

  /** The elements in use are those whose flag is set, each once, in the list's order. */
  lemma {:induction false} InUsePositions(s: seq<Element>, flags: seq<bool>) returns (p: seq<nat>)
    requires |s| == |flags|
    ensures Ascending(p) && forall x: nat :: x in p <==> x < |s| && flags[x]
    ensures |InUse(s, flags)| == |p|
    ensures forall i :: 0 <= i < |p| ==> p[i] < |s| && InUse(s, flags)[i] == s[p[i]]
  {
    p := [];
    if s != [] {
      var n := |s| - 1;
      var q := InUsePositions(s[..n], flags[..n]);
      AscendingOneMore(q, n);
      p := if flags[n] then q + [n] else q;
    }
  }

  /** The ids of the elements whose flag is not set, each once, in the list's order. */
  lemma {:induction false} UnusedPositions(s: seq<Element>, flags: seq<bool>) returns (p: seq<nat>)
    requires |s| == |flags|
    ensures Ascending(p) && forall x: nat :: x in p <==> x < |s| && !flags[x]
    ensures |UnusedIds(s, flags)| == |p|
    ensures forall i :: 0 <= i < |p| ==> p[i] < |s| && UnusedIds(s, flags)[i] == s[p[i]].requestId
  {
    p := [];
    if s != [] {
      var n := |s| - 1;
      var q := UnusedPositions(s[..n], flags[..n]);
      AscendingOneMore(q, n);
      p := if flags[n] then q else q + [n];
    }
  }

  lemma {:induction false} InUseFirst(s: seq<Element>, flags: seq<bool>)
    requires |s| == |flags| && s != [] && flags[0]
    ensures InUse(s, flags) != [] && InUse(s, flags)[0] == s[0]
  {
    var n := |s| - 1;
    if n > 0 {
      InUseFirst(s[..n], flags[..n]);
    }
  }

  /** The old ends fit the entries in use exactly when both were in use. */
  lemma SweptEnds(s: seq<Element>, flags: seq<bool>)
    requires |s| == |flags| && Distinct(s)
    ensures var u := InUse(s, flags);
            At(s, 0) == At(u, 0) && At(s, |s| - 1) == At(u, |u| - 1)
            <==> s == [] || (flags[0] && flags[|s| - 1])
  {
    var u := InUse(s, flags);
    InUseIsPart(s, flags);
    if s != [] {
      if flags[0] {
        InUseFirst(s, flags);
      }
      if u != [] {
        assert u[0] in u && u[|u| - 1] in u;
      }
    }
  }
}
