/**
 The counting handle on the heap. Every operation takes one step of the transition system: whatever
 state of that system the heap mirrored before, it mirrors the next one afterwards.
 */
module MemberPtrs {
  import opened Wrappers
  import opened HandleRuns
  import opened HandleSafety

  /** A use counter; each operation holds the counter's mutex. */
  class AtomicCounter {
    var value: nat

    constructor (value: nat)
      ensures this.value == value
    {
      this.value := value;
    }

    method Increase()
      modifies this
      ensures value == old(value) + 1
    {
      value := value + 1;
    }

    /** Never goes below zero. */
    method Decrease()
      modifies this
      ensures value == if old(value) > 0 then old(value) - 1 else 0
    {
      if value > 0 {
        value := value - 1;
      }
    }

    method NonZero() returns (b: bool)
      ensures b <==> value > 0
    {
      b := value > 0;
    }
  }

  /** An entry of the store's list. */
  class Element {
    var prev: Element?
    var next: Element?
    const primaryKey: string
    const requestId: nat
    const useCounter: AtomicCounter

    /** A new entry counts one user: the handle its creator is about to receive. */
    constructor (prev: Element?, next: Element?, primaryKey: string, requestId: nat)
      ensures this.prev == prev && this.next == next
      ensures this.primaryKey == primaryKey && this.requestId == requestId
      ensures fresh(useCounter) && useCounter.value == 1
    {
      this.prev, this.next, this.primaryKey, this.requestId := prev, next, primaryKey, requestId;
      useCounter := new AtomicCounter(1);
    }
  }

  function CounterOf(entry: Element?): set<AtomicCounter> {
    if entry == null then {} else {entry.useCounter}
  }

  ghost function CountersOf(entries: set<Entry>): set<AtomicCounter> {
    set e: Element | e in entries :: e.useCounter
  }

  ghost function PtrsOf(handles: set<Handle>): set<MemberPtr> {
    set h: MemberPtr | h in handles
  }

  function EntryOf(entry: Element?): Option<Entry> {
    if entry == null then None else Some(entry)
  }

  // ---------- the heap and the transition system ----------

  /** No two entries share a counter. */
  ghost predicate OwnCounters(entries: set<Entry>) {
    && (forall e :: e in entries ==> e is Element)
    && (forall e: Element, f: Element :: e in entries && f in entries && e.useCounter == f.useCounter ==> e == f)
  }

  ghost predicate MirrorsCounters(s: State)
    reads CountersOf(s.counters.Keys)
  {
    forall e: Element :: e in s.counters ==> e.useCounter.value == s.counters[e]
  }

  ghost predicate MirrorsHandles(s: State)
    reads PtrsOf(s.handles.Keys)
  {
    && (forall h :: h in s.handles ==> h is MemberPtr)
    && (forall h: MemberPtr :: h in s.handles ==> EntryOf(h.target) == s.handles[h])
  }

  /** The counters of the stored entries and the targets of the live handles are those of the state. */
  ghost predicate Mirrors(s: State)
    reads CountersOf(s.counters.Keys), PtrsOf(s.handles.Keys)
  {
    Tidy(s) && OwnCounters(s.known) && MirrorsCounters(s) && MirrorsHandles(s)
  }

  lemma TargetIsKnown(s: State, h: MemberPtr)
    requires Tidy(s) && MirrorsHandles(s) && h in s.handles
    ensures h.target != null ==> h.target in s.known
  {
  }

  /** The counters after one more handle points to a target. */
  ghost function CountedOnceMore(counters: map<Entry, nat>, t: Option<Entry>): map<Entry, nat> {
    if t.Some? && t.value in counters then counters[t.value := counters[t.value] + 1] else counters
  }

  lemma IncreaseResult(s: State, t: Option<Entry>)
    ensures Increase(s, t) == s.(counters := CountedOnceMore(s.counters, t))
  {
  }

  lemma CopyAssignResult(s: State, h: Handle, f: Handle)
    requires Enabled(s, CopyAssign(h, f))
    ensures var t := Step(s, CopyAssign(h, f));
            && t.known == s.known && t.handles == s.handles[h := s.handles[f]]
            && t.counters == CountedOnceMore(s.counters, s.handles[f])
  {
    hide Increase, Overwrite, CountedOnceMore;
    CountingKeepsKeys(s, s.handles[h]);
    IncreaseResult(Put(Overwrite(s, s.handles[h]), h, s.handles[f]), s.handles[f]);
  }

  lemma MoveAssignResult(s: State, h: Handle, f: Handle)
    requires Enabled(s, MoveAssign(h, f))
    ensures var t := Step(s, MoveAssign(h, f));
            && t.known == s.known && t.counters == s.counters
            && t.handles == if s.handles[f].None? then s.handles[h := None] else s.handles[h := s.handles[f]][f := None]
  {
    hide Overwrite;
    CountingKeepsKeys(s, s.handles[h]);
  }

  lemma CopyResult(s: State, h: Handle, f: Handle)
    requires Enabled(s, Copy(h, f))
    ensures var t := Step(s, Copy(h, f));
            && t.known == s.known && t.handles == s.handles[h := s.handles[f]]
            && t.counters == CountedOnceMore(s.counters, s.handles[f])
  {
    hide Increase, Overwrite, CountedOnceMore;
    IncreaseResult(Put(s, h, s.handles[f]), s.handles[f]);
  }

  /** A handle; a null target makes it empty. */
  class MemberPtr {
    var target: Element?

    constructor (ghost s: State)
      requires Mirrors(s)
      ensures target == null
      ensures this !in s.handles && Mirrors(Step(s, Default(this)))
    {
      target := null;
      new;
      StepKeepsTidy(s, Default(this));
    }

    /**
     A handle made by the store, which leaves the counter alone. After a request the new entry's
     counter already counts it; after a cache hit nothing does.
     */
    constructor Adopt(entry: Element, ghost s: State)
      requires Mirrors(s)
      ensures target == entry && this !in s.handles
      ensures entry in s.owed ==> Mirrors(Step(s, Hand(entry, this)))
      ensures entry in s.counters ==> Mirrors(Step(s, Hit(entry, this)))
    {
      target := entry;
      new;
      if entry in s.owed {
        StepKeepsTidy(s, Hand(entry, this));
      }
      if entry in s.counters {
        StepKeepsTidy(s, Hit(entry, this));
      }
    }

    constructor CopyOf(other: MemberPtr, ghost s: State)
      requires Mirrors(s) && other in s.handles
      modifies CounterOf(other.target)
      ensures target == other.target
      ensures target != null ==> target.useCounter.value == old(other.target.useCounter.value) + 1
      ensures this !in s.handles && Mirrors(Step(s, Copy(this, other)))
    {
      target := other.target;
      new;
      StepKeepsTidy(s, Copy(this, other));
      TargetIsKnown(s, other);
      CopyResult(s, this, other);
      hide Tidy, Step;
      if target == null {
        return;
      }
      target.useCounter.Increase();
    }

    constructor MoveFrom(other: MemberPtr, ghost s: State)
      requires Mirrors(s) && other in s.handles
      modifies other
      ensures target == old(other.target) && other.target == null
      ensures this !in s.handles && Mirrors(Step(s, Move(this, other)))
    {
      target := other.target;
      new;
      StepKeepsTidy(s, Move(this, other));
      if target == null {
        return;
      }
      other.target := null;
    }

    /** The old target keeps its count although this handle has left it. */
    method CopyAssign(other: MemberPtr, ghost s: State)
      requires Mirrors(s) && this in s.handles && other in s.handles
      modifies this, CounterOf(other.target)
      ensures target == old(other.target)
      ensures target != null ==> target.useCounter.value == old(other.target.useCounter.value) + 1
      ensures Mirrors(Step(s, Event.CopyAssign(this, other)))
    {
      StepKeepsTidy(s, Event.CopyAssign(this, other));
      TargetIsKnown(s, other);
      CopyAssignResult(s, this, other);
      hide Tidy, Step;
      target := other.target;
      if target == null {
        return;
      }
      target.useCounter.Increase();
    }

    /** As with copying, the old target keeps its count; moved onto itself, a handle ends up empty. */
    method MoveAssign(other: MemberPtr, ghost s: State)
      requires Mirrors(s) && this in s.handles && other in s.handles
      modifies this, other
      ensures other.target == null && (this != other ==> target == old(other.target))
      ensures Mirrors(Step(s, Event.MoveAssign(this, other)))
    {
      StepKeepsTidy(s, Event.MoveAssign(this, other));
      MoveAssignResult(s, this, other);
      hide Tidy, Step;
      target := other.target;
      if target == null {
        return;
      }
      other.target := null;
    }

    /** The destructor. */
    method Destroy(ghost s: State)
      requires Mirrors(s) && this in s.handles
      modifies CounterOf(target)
      ensures target != null ==>
                target.useCounter.value
                == if old(target.useCounter.value) > 0 then old(target.useCounter.value) - 1 else 0
      ensures Mirrors(Step(s, Event.Destroy(this)))
    {
      StepKeepsTidy(s, Event.Destroy(this));
      if target == null {
        return;
      }
      target.useCounter.Decrease();
    }
  }

  // ---------- what the runs mean for the heap ----------

  /**
   The accounting law on the heap: after every run, the counter object of a stored entry plus the
   cache hits equals the handle objects pointing to it, the one owed, the assignments over a handle
   on it and the destructions that found it at zero.
   */
  lemma HeapAccounting(events: seq<Event>, e: Element)
    requires IsRun(events) && Mirrors(After(events)) && e in After(events).counters
    ensures var s := After(events);
            && (forall h: MemberPtr :: h in s.handles ==> (h in Pointing(s.handles, e) <==> h.target == e))
            && e.useCounter.value + Hits(events, e)
               == |Pointing(s.handles, e)| + (if e in s.owed then 1 else 0)
                  + Overwrites(events, e) + Saturations(events, e)
  {
    hide IsRun, After;
    AccountingOverEvents(events, e);
  }

  /**
   After every run without cache hits each live handle object is empty or points to an entry that is
   still stored and whose counter object is positive.
   */
  lemma HeapHandlesAreSafe(events: seq<Event>, h: MemberPtr)
    requires IsRun(events) && NoHits(events) && Mirrors(After(events)) && h in After(events).handles
    ensures h.target != null ==> h.target in After(events).counters && h.target.useCounter.value > 0
  {
    SafetyTheorem(events);
    if h.target != null {
      HeldMeansPositive(After(events), h);
    }
  }
}
