/**
 Lookup and collection on the store's list, as steps of the transition system.
 */
module DataStores {
  import opened Wrappers
  import opened Sequences
  import opened HandleRuns
  import opened HandleSafety
  import opened MemberPtrs
  import opened Stores

  /** The list holds exactly the entries of the state. */
  ghost predicate Holds(elements: seq<Element>, s: State) {
    && (forall i :: 0 <= i < |elements| ==> elements[i] in s.counters)
    && (forall e :: e in s.counters ==> exists i :: 0 <= i < |elements| && elements[i] == e)
  }

  /** The empty store mirrors the state in which every run begins. */
  lemma EmptyStore()
    ensures Mirrors(EMPTY) && Holds([], EMPTY) && IsRun([]) && After([]) == EMPTY
  {
  }

  // ---------- lookup ----------

  lemma EmplacedHolds(elements: seq<Element>, s: State, e: Element)
    requires Holds(elements, s) && e !in s.known
    ensures Holds(elements + [e], Step(s, Emplace(e)))
  {
    var longer := elements + [e];
    forall f | f in Step(s, Emplace(e)).counters ensures exists i :: 0 <= i < |longer| && longer[i] == f {
      if f == e {
        assert longer[|elements|] == f;
      } else {
        var i :| 0 <= i < |elements| && elements[i] == f;
        assert longer[i] == f;
      }
    }
  }

  lemma HandedHolds(elements: seq<Element>, s: State, e: Element, h: MemberPtr)
    requires Holds(elements, s) && Enabled(s, Hand(e, h))
    ensures Holds(elements, Step(s, Hand(e, h)))
  {
  }

  lemma EmplacedMirrors(s: State, e: Element)
    requires Mirrors(s) && e !in s.known && e.useCounter !in CountersOf(s.known) && e.useCounter.value == 1
    ensures Mirrors(Step(s, Emplace(e)))
  {
    StepKeepsTidy(s, Emplace(e));
  }

  /** A requested member is stored at the end with counter one, for the handle returned. */
  method RequestMember(list: DoubleLinkedList, primaryKey: string, requestId: nat, ghost s: State)
    returns (ptr: MemberPtr)
    requires list.Valid() && Mirrors(s) && Holds(list.elements, s)
    modifies list, list.elements
    ensures list.Valid()
    ensures fresh(ptr) && ptr !in s.handles && ptr.target != null
    ensures ptr.target.primaryKey == primaryKey && ptr.target.requestId == requestId
    ensures fresh(ptr.target) && fresh(ptr.target.useCounter) && ptr.target.useCounter.value == 1
    ensures list.elements == old(list.elements) + [ptr.target]
    ensures ptr.target !in s.known && Requested(list.elements, s, ptr.target, ptr)
  {
    hide Holds;
    var created := list.EmplaceBack(primaryKey, requestId);
    ghost var stored := Step(s, Emplace(created));
    EmplacedMirrors(s, created);
    EmplacedHolds(old(list.elements), s, created);
    ptr := new MemberPtr.Adopt(created, stored);
    HandedHolds(list.elements, stored, created, ptr);
  }

  /** Heap and list have taken the two steps of a request. */
  ghost predicate Requested(elements: seq<Element>, s: State, e: Element, h: MemberPtr)
    requires e !in s.known && h !in s.handles
    reads CountersOf(s.counters.Keys + {e}), PtrsOf(s.handles.Keys + {h})
  {
    var t := Step(Step(s, Emplace(e)), Hand(e, h));
    Mirrors(t) && Holds(elements, t)
  }

  /**
   A lookup by key. If the store has the member, the first entry with the key gets another handle
   and no counter moves; otherwise the member is requested.
   */
  method GetMember(list: DoubleLinkedList, primaryKey: string, requestId: nat, ghost s: State)
    returns (ptr: MemberPtr, hit: bool, ghost k: nat)
    requires list.Valid() && Mirrors(s) && Holds(list.elements, s)
    modifies list, list.elements
    ensures list.Valid()
    ensures hit <==> exists e :: e in old(list.elements) && e.primaryKey == primaryKey
    ensures fresh(ptr) && ptr !in s.handles && ptr.target != null && ptr.target.primaryKey == primaryKey
    ensures hit ==>
              && list.elements == old(list.elements) && k < |list.elements| && list.elements[k] == ptr.target
              && (forall j :: 0 <= j < k ==> list.elements[j].primaryKey != primaryKey)
              && ptr.target in s.counters
              && var t := Step(s, Hit(ptr.target, ptr)); Mirrors(t) && Holds(list.elements, t)
    ensures !hit ==>
              && ptr.target.requestId == requestId && ptr.target.useCounter.value == 1
              && fresh(ptr.target) && fresh(ptr.target.useCounter)
              && list.elements == old(list.elements) + [ptr.target]
              && ptr.target !in s.known && Requested(list.elements, s, ptr.target, ptr)
  {
    var it;
    it, k := list.Find(primaryKey);
    if it != null {
      hit := true;
      ptr := new MemberPtr.Adopt(it, s);
    } else {
      hit := false;
      ptr := RequestMember(list, primaryKey, requestId, s);
    }
  }

  // ---------- collection ----------

  /** The collector's steps in one pass: each entry is checked, an unused one erased at once. */
  ghost function SweepEvents(elements: seq<Element>, flags: seq<bool>): seq<Event>
    requires |elements| == |flags|
  {
    if elements == [] then []
    else
      var n := |elements| - 1;
      SweepEvents(elements[..n], flags[..n]) + EntryEvents(elements[n], flags[n])
  }

  ghost function EntryEvents(e: Element, inUse: bool): seq<Event> {
    if inUse then [Check(e)] else [Check(e), Erase(e)]
  }

  /** Where each entry's check stands among the events; an entry not in use is erased right after it. */
  ghost predicate ChecksAt(elements: seq<Element>, flags: seq<bool>, done: seq<Event>, at: seq<nat>) {
    && |elements| == |flags| && |at| == |elements| + 1 && at[0] == 0 && at[|elements|] == |done|
    && forall i :: 0 <= i < |elements| ==>
         && at[i + 1] == at[i] + (if flags[i] then 1 else 2) <= |done|
         && done[at[i]] == Check(elements[i])
         && (!flags[i] ==> done[at[i] + 1] == Erase(elements[i]))
  }

  lemma ChecksAtOneMore(
    elements: seq<Element>, flags: seq<bool>, n: nat, done: seq<Event>, at: seq<nat>)
    requires n == |elements| - 1 && |flags| == |elements| && ChecksAt(elements[..n], flags[..n], done, at)
    ensures var now := done + EntryEvents(elements[n], flags[n]);
            ChecksAt(elements, flags, now, at + [|now|])
  {
    var now, at' := done + EntryEvents(elements[n], flags[n]), at + [|done + EntryEvents(elements[n], flags[n])|];
    forall i | 0 <= i < |elements|
      ensures && at'[i + 1] == at'[i] + (if flags[i] then 1 else 2) <= |now|
              && now[at'[i]] == Check(elements[i])
              && (!flags[i] ==> now[at'[i] + 1] == Erase(elements[i]))
    {
      if i < n {
        assert elements[..n][i] == elements[i] && flags[..n][i] == flags[i];
        assert at[i + 1] == at[i] + (if flags[..n][i] then 1 else 2) <= |done|;
      }
    }
  }

  /** One check for each entry, in the list's order, followed by an erasure exactly for those not in use. */
  lemma {:induction false} SweepEventPositions(elements: seq<Element>, flags: seq<bool>) returns (at: seq<nat>)
    requires |elements| == |flags|
    ensures ChecksAt(elements, flags, SweepEvents(elements, flags), at)
  {
    if elements == [] {
      at := [0];
    } else {
      var n := |elements| - 1;
      var before := SweepEventPositions(elements[..n], flags[..n]);
      hide ChecksAt;
      ChecksAtOneMore(elements, flags, n, SweepEvents(elements[..n], flags[..n]), before);
      at := before + [|SweepEvents(elements, flags)|];
    }
  }

  ghost function Unused(elements: seq<Element>, flags: seq<bool>): (u: set<Entry>)
    requires |elements| == |flags|
    ensures forall i :: 0 <= i < |elements| && !flags[i] ==> elements[i] in u
    ensures forall e :: e in u ==> exists i :: 0 <= i < |elements| && elements[i] == e && !flags[i]
  {
    set i | 0 <= i < |elements| && !flags[i] :: elements[i]
  }

  ghost function Collected(s: State, elements: seq<Element>, flags: seq<bool>): State
    requires |elements| == |flags|
  {
    s.(counters := s.counters - Unused(elements, flags))
  }

  /** The flags say which of the elements, all of them stored, have a positive counter. */
  ghost predicate Flagged(s: State, elements: seq<Element>, flags: seq<bool>) {
    && |elements| == |flags|
    && forall i :: 0 <= i < |elements| ==>
         elements[i] in s.counters && (flags[i] <==> s.counters[elements[i]] > 0)
  }

  lemma EntryIsRun(events: seq<Event>, e: Element, inUse: bool)
    requires IsRun(events) && After(events).condemned == None && e in After(events).counters
    requires inUse <==> After(events).counters[e] > 0
    ensures IsRun(events + EntryEvents(e, inUse))
    ensures After(events + EntryEvents(e, inUse))
         == if inUse then After(events) else After(events).(counters := After(events).counters - {e})
  {
    hide IsRun, After;
    RunExtends(events, Check(e));
    if !inUse {
      RunExtends(events + [Check(e)], Erase(e));
      assert events + [Check(e)] + [Erase(e)] == events + EntryEvents(e, inUse);
    }
  }

  lemma CollectedOneMore(s: State, elements: seq<Element>, flags: seq<bool>, n: nat)
    requires Flagged(s, elements, flags) && Distinct(elements) && n == |elements| - 1
    ensures Flagged(s, elements[..n], flags[..n])
    ensures var t := Collected(s, elements[..n], flags[..n]);
            && t.condemned == s.condemned && elements[n] in t.counters
            && (flags[n] <==> t.counters[elements[n]] > 0)
            && Collected(s, elements, flags)
               == if flags[n] then t else t.(counters := t.counters - {elements[n]})
  {
    var before, all := Unused(elements[..n], flags[..n]), Unused(elements, flags);
    assert all == if flags[n] then before else before + {elements[n]};
    assert s.counters - (before + {elements[n]}) == s.counters - before - {elements[n]};
  }

  lemma NothingCollected(s: State)
    ensures SweepEvents([], []) == [] && Collected(s, [], []) == s
  {
    assert s.counters - {} == s.counters;
  }

  /** One pass over the stored entries is a run, and erases exactly the entries with a zero counter. */
  lemma {:induction false} SweepIsRun(events: seq<Event>, elements: seq<Element>, flags: seq<bool>)
    requires IsRun(events) && After(events).condemned == None
    requires Distinct(elements) && Flagged(After(events), elements, flags)
    ensures IsRun(events + SweepEvents(elements, flags))
    ensures After(events + SweepEvents(elements, flags)) == Collected(After(events), elements, flags)
  {
    hide IsRun, After, EntryEvents, Collected;
    if elements == [] {
      assert events + [] == events;
      NothingCollected(After(events));
    } else {
      var n := |elements| - 1;
      assert SweepEvents(elements, flags) == SweepEvents(elements[..n], flags[..n]) + EntryEvents(elements[n], flags[n]);
      CollectedOneMore(After(events), elements, flags, n);
      hide Flagged, SweepEvents;
      SweepIsRun(events, elements[..n], flags[..n]);
      var so := events + SweepEvents(elements[..n], flags[..n]);
      assert so + EntryEvents(elements[n], flags[n]) == events + SweepEvents(elements, flags);
      EntryIsRun(so, elements[n], flags[n]);
    }
  }

  lemma CollectedMirrors(s: State, elements: seq<Element>, flags: seq<bool>)
    requires Mirrors(s) && |elements| == |flags|
    ensures Mirrors(Collected(s, elements, flags))
  {
  }

  lemma {:induction false} InUseIsAll(elements: seq<Element>, flags: seq<bool>, i: nat)
    requires |elements| == |flags| && i < |elements| && flags[i]
    ensures elements[i] in InUse(elements, flags)
  {
    var n := |elements| - 1;
    if i < n {
      InUseIsAll(elements[..n], flags[..n], i);
    }
  }

  lemma CollectedHolds(s: State, elements: seq<Element>, flags: seq<bool>)
    requires Holds(elements, s) && Distinct(elements) && |elements| == |flags|
    ensures Holds(InUse(elements, flags), Collected(s, elements, flags))
  {
    var used, t := InUse(elements, flags), Collected(s, elements, flags);
    InUseIsPart(elements, flags);
    forall i | 0 <= i < |used| ensures used[i] in t.counters {
      assert used[i] in used;
    }
    forall e | e in t.counters ensures exists i :: 0 <= i < |used| && used[i] == e {
      var i :| 0 <= i < |elements| && elements[i] == e;
      InUseIsAll(elements, flags, i);
    }
  }

  lemma CollectedRun(events: seq<Event>, elements: seq<Element>)
    requires IsRun(events) && After(events).condemned == None
    requires Distinct(elements) && MirrorsCounters(After(events)) && Holds(elements, After(events))
    ensures var run := events + SweepEvents(elements, Flags(elements));
            && IsRun(run) && After(run) == Collected(After(events), elements, Flags(elements))
            && Holds(InUse(elements, Flags(elements)), After(run))
  {
    var s, flags := After(events), Flags(elements);
    assert Flagged(s, elements, flags) by {
      hide IsRun, After;
    }
    hide *;
    SweepIsRun(events, elements, flags);
    CollectedHolds(s, elements, flags);
  }

  /** The sweep moves no counter and no handle. */
  method SweepMirrored(list: DoubleLinkedList, ghost s: State) returns (unsubscribed: seq<nat>)
    requires list.Valid() && Mirrors(s)
    modifies list`elements, list.elements
    ensures list.elements == InUse(old(list.elements), old(Flags(list.elements))) && Linked(list.elements)
    ensures list.Valid() <==> old(EndsInUse(list.elements))
    ensures unsubscribed == UnusedIds(old(list.elements), old(Flags(list.elements)))
    ensures Mirrors(Collected(s, old(list.elements), old(Flags(list.elements))))
  {
    hide UnusedIds, InUse, Collected;
    ghost var elements, flags := list.elements, Flags(list.elements);
    unsubscribed := list.Sweep();
    assert MirrorsCounters(s);
    assert MirrorsHandles(s);
    CollectedMirrors(s, elements, flags);
  }

  /** One pass of the collector, undisturbed, takes heap and list through its steps of the run. */
  method Collect(list: DoubleLinkedList, ghost events: seq<Event>) returns (unsubscribed: seq<nat>)
    requires list.Valid() && IsRun(events) && After(events).condemned == None
    requires Mirrors(After(events)) && Holds(list.elements, After(events))
    modifies list`elements, list.elements
    ensures list.elements == InUse(old(list.elements), old(Flags(list.elements))) && Linked(list.elements)
    ensures list.Valid() <==> old(EndsInUse(list.elements))
    ensures unsubscribed == UnusedIds(old(list.elements), old(Flags(list.elements)))
    ensures var run := events + SweepEvents(old(list.elements), old(Flags(list.elements)));
            && IsRun(run) && Mirrors(After(run)) && Holds(list.elements, After(run))
            && After(run) == Collected(After(events), old(list.elements), old(Flags(list.elements)))
  {
    hide IsRun, After, SweepEvents, UnusedIds, InUse, Collected;
    CollectedRun(events, list.elements);
    unsubscribed := SweepMirrored(list, After(events));
  }
}
