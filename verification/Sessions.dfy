/**
 A client of the store: any sequence of lookups, handle operations and collections on the heap is a
 run of the transition system, which the heap mirrors throughout.
 */
module Sessions {
  import opened Wrappers
  import opened Sequences
  import opened HandleRuns
  import opened HandleSafety
  import opened MemberPtrs
  import opened Stores
  import opened DataStores

  /** What a client may do. Slots are numbered in the order in which they were filled. */
  datatype Op =
    | LookUp(primaryKey: string, requestId: nat)
    | MakeEmpty
    | CopyOf(from: nat)
    | MoveFrom(from: nat)
    | CopyOnto(to: nat, from: nat)
    | MoveOnto(to: nat, from: nat)
    | Release(slot: nat)
    | CollectUnused

  /** A client's handles, null once released, and whether the list's own ends are still in place. */
  datatype Client = Client(slots: seq<MemberPtr?>, intact: bool)

  predicate Usable(slots: seq<MemberPtr?>, i: nat) {
    i < |slots| && slots[i] != null
  }

  /** An operation on an empty slot is skipped, and so is one on a list whose ends are left behind. */
  predicate Applies(op: Op, c: Client) {
    match op
    case LookUp(_, _) => c.intact
    case MakeEmpty => true
    case CopyOf(i) => Usable(c.slots, i)
    case MoveFrom(i) => Usable(c.slots, i)
    case CopyOnto(i, j) => Usable(c.slots, i) && Usable(c.slots, j)
    case MoveOnto(i, j) => Usable(c.slots, i) && Usable(c.slots, j)
    case Release(i) => Usable(c.slots, i)
    case CollectUnused => c.intact
  }

  ghost predicate FillsSlot(c: Client, c': Client) {
    |c'.slots| == |c.slots| + 1 && c' == c.(slots := c.slots + [c'.slots[|c.slots|]]) && c'.slots[|c.slots|] != null
  }

  /** The first entry with the key. */
  ghost predicate FirstWith(elements: seq<Element>, primaryKey: string, i: nat) {
    i < |elements| && elements[i].primaryKey == primaryKey && forall j :: 0 <= j < i ==> elements[j].primaryKey != primaryKey
  }

  /**
   The first entry with the key gets one more handle; without one, an entry is stored at the end
   under the id of its request, for the handle.
   */
  ghost predicate LooksUp(
    primaryKey: string, requestId: nat, elements: seq<Element>, elements': seq<Element>, done: seq<Event>, h: MemberPtr)
  {
    if exists i: nat :: FirstWith(elements, primaryKey, i) then
      elements' == elements && exists i: nat :: FirstWith(elements, primaryKey, i) && done == [Hit(elements[i], h)]
    else
      && |elements'| == |elements| + 1 && elements'[..|elements|] == elements
      && var e := elements'[|elements|];
         e.primaryKey == primaryKey && e.requestId == requestId && done == [Emplace(e), Hand(e, h)]
  }

  /** Which entries have a positive counter. */
  ghost function UsedFlags(s: State, elements: seq<Element>): (flags: seq<bool>)
    ensures |flags| == |elements|
    ensures forall i :: 0 <= i < |flags| ==>
              (flags[i] <==> elements[i] in s.counters && s.counters[elements[i]] > 0)
  {
    seq(|elements|, i requires 0 <= i < |elements| => elements[i] in s.counters && s.counters[elements[i]] > 0)
  }

  /**
   Every entry is checked in turn and erased at once when its counter is zero; the ids of the erased
   ones are unsubscribed, the others stay in order.
   */
  ghost predicate Collects(
    s: State, elements: seq<Element>, elements': seq<Element>, done: seq<Event>, unsubscribed: seq<nat>, intact: bool)
  {
    var flags := UsedFlags(s, elements);
    && done == SweepEvents(elements, flags) && unsubscribed == UnusedIds(elements, flags)
    && elements' == InUse(elements, flags)
    && (intact <==> elements == [] || (flags[0] && flags[|elements| - 1]))
  }

  /** A session between two operations: the client, the entries in the list, and the events so far. */
  datatype Moment = Moment(client: Client, elements: seq<Element>, events: seq<Event>)

  /** What an operation makes of the session, the events it performs, and the ids it unsubscribes. */
  ghost predicate Performs(op: Op, m: Moment, done: seq<Event>, unsubscribed: seq<nat>, m': Moment) {
    var c, c' := m.client, m'.client;
    && m'.events == m.events + done
    && (!(op.CollectUnused? && Applies(op, c)) ==> unsubscribed == [])
    && (!(op.LookUp? || op.CollectUnused?) ==> m'.elements == m.elements)
    && if !Applies(op, c) then m' == m && done == []
       else
         match op
         case LookUp(k, id) => FillsSlot(c, c') && LooksUp(k, id, m.elements, m'.elements, done, c'.slots[|c.slots|])
         case MakeEmpty => FillsSlot(c, c') && done == [Default(c'.slots[|c.slots|])]
         case CopyOf(i) => FillsSlot(c, c') && done == [Copy(c'.slots[|c.slots|], c.slots[i])]
         case MoveFrom(i) => FillsSlot(c, c') && done == [Move(c'.slots[|c.slots|], c.slots[i])]
         case CopyOnto(i, j) => c' == c && done == [CopyAssign(c.slots[i], c.slots[j])]
         case MoveOnto(i, j) => c' == c && done == [MoveAssign(c.slots[i], c.slots[j])]
         case Release(i) => c' == c.(slots := c.slots[i := null]) && done == [Destroy(c.slots[i])]
         case CollectUnused =>
           c'.slots == c.slots && Collects(After(m.events), m.elements, m'.elements, done, unsubscribed, c'.intact)
  }

  /** Everything a session may touch: entries ever stored, their counters, and the live handles. */
  ghost function Footprint(list: DoubleLinkedList, s: State): set<object> {
    {list} + s.known + CountersOf(s.known) + s.handles.Keys
  }

  /** Every filled slot holds a live handle of its own. */
  ghost predicate Tracks(slots: seq<MemberPtr?>, s: State) {
    && (forall i :: 0 <= i < |slots| && slots[i] != null ==> slots[i] in s.handles)
    && (forall i, j :: 0 <= i < j < |slots| && slots[i] != null ==> slots[i] != slots[j])
  }

  /** Between two operations nothing is owed and the collector is at rest. */
  ghost predicate AtRest(s: State) {
    s.owed == {} && s.condemned == None
  }

  // ---------- steps of the handles ----------

  ghost predicate HandleEvent(ev: Event) {
    ev.Default? || ev.Copy? || ev.Move? || ev.CopyAssign? || ev.MoveAssign? || ev.Destroy?
  }

  /** The live handles after a handle operation. */
  ghost function HandlesAfter(s: State, ev: Event): set<Handle>
    requires HandleEvent(ev)
  {
    if ev.CopyAssign? || ev.MoveAssign? then s.handles.Keys
    else if ev.Destroy? then s.handles.Keys - {ev.handle}
    else s.handles.Keys + {ev.handle}
  }

  lemma HandleStepKeys(s: State, ev: Event)
    requires Enabled(s, ev) && HandleEvent(ev)
    ensures var t := Step(s, ev);
            && t.owed == s.owed && t.condemned == s.condemned && t.known == s.known
            && t.counters.Keys == s.counters.Keys && t.handles.Keys == HandlesAfter(s, ev)
  {
    hide Increase, Decrease, Overwrite;
    match ev
    case Default(h) =>
    case Copy(h, f) => CountingKeepsKeys(Put(s, h, s.handles[f]), s.handles[f]);
    case Move(h, f) =>
    case CopyAssign(h, f) =>
      CountingKeepsKeys(s, s.handles[h]);
      CountingKeepsKeys(Put(Overwrite(s, s.handles[h]), h, s.handles[f]), s.handles[f]);
    case MoveAssign(h, f) => CountingKeepsKeys(s, s.handles[h]);
    case Destroy(h) => CountingKeepsKeys(s, s.handles[h]);
  }

  lemma HoldsSameKeys(elements: seq<Element>, s: State, t: State)
    requires Holds(elements, s) && t.counters.Keys == s.counters.Keys
    ensures Holds(elements, t)
  {
    forall e | e in t.counters ensures exists i :: 0 <= i < |elements| && elements[i] == e {
      assert e in s.counters;
    }
  }

  lemma HandleStepInRun(events: seq<Event>, ev: Event, elements: seq<Element>)
    requires IsRun(events) && Enabled(After(events), ev) && HandleEvent(ev)
    requires AtRest(After(events)) && Holds(elements, After(events))
    ensures var s, t := After(events), After(events + [ev]);
            && IsRun(events + [ev]) && t == Step(s, ev) && AtRest(t) && Holds(elements, t)
            && t.known == s.known && t.handles.Keys == HandlesAfter(s, ev)
  {
    hide After, IsRun, Step, Enabled, Holds;
    RunExtends(events, ev);
    HandleStepKeys(After(events), ev);
    HoldsSameKeys(elements, After(events), After(events + [ev]));
  }

  /** The counter a handle points to belongs to the session, even when its entry was erased. */
  lemma TargetInFootprint(list: DoubleLinkedList, s: State, h: MemberPtr)
    requires Mirrors(s) && h in s.handles
    ensures CounterOf(h.target) <= Footprint(list, s)
  {
  }

  // ---------- operations of a client ----------

  /** A session between two operations. */
  ghost predicate Ready(list: DoubleLinkedList, c: Client, events: seq<Event>)
    reads list, list.elements
    reads CountersOf(After(events).counters.Keys), PtrsOf(After(events).handles.Keys)
  {
    && IsRun(events) && Mirrors(After(events)) && AtRest(After(events))
    && Holds(list.elements, After(events)) && Tracks(c.slots, After(events))
    && Linked(list.elements) && (c.intact ==> list.EndsFit())
  }

  method Empty(list: DoubleLinkedList, c: Client, ghost events: seq<Event>)
    returns (h: MemberPtr, ghost done: seq<Event>)
    requires Ready(list, c, events)
    ensures done == [Default(h)] && Ready(list, c.(slots := c.slots + [h]), events + done)
    ensures fresh(h) && Footprint(list, After(events + done)) <= Footprint(list, After(events)) + {h}
  {
    h := new MemberPtr(After(events));
    done := [Default(h)];
    HandleStepInRun(events, Default(h), list.elements);
    hide After, IsRun, Step, Holds, Linked;
  }

  method CopySlot(list: DoubleLinkedList, c: Client, i: nat, ghost events: seq<Event>)
    returns (h: MemberPtr, ghost done: seq<Event>)
    requires Ready(list, c, events) && Usable(c.slots, i)
    modifies CounterOf(c.slots[i].target)
    ensures done == [Copy(h, c.slots[i])] && Ready(list, c.(slots := c.slots + [h]), events + done)
    ensures fresh(h) && Footprint(list, After(events + done)) <= Footprint(list, After(events)) + {h}
  {
    h := new MemberPtr.CopyOf(c.slots[i], After(events));
    done := [Copy(h, c.slots[i])];
    HandleStepInRun(events, Copy(h, c.slots[i]), list.elements);
    hide After, IsRun, Step, Holds, Linked;
  }

  method MoveSlot(list: DoubleLinkedList, c: Client, i: nat, ghost events: seq<Event>)
    returns (h: MemberPtr, ghost done: seq<Event>)
    requires Ready(list, c, events) && Usable(c.slots, i)
    modifies c.slots[i]
    ensures done == [Move(h, c.slots[i])] && Ready(list, c.(slots := c.slots + [h]), events + done)
    ensures fresh(h) && Footprint(list, After(events + done)) <= Footprint(list, After(events)) + {h}
  {
    h := new MemberPtr.MoveFrom(c.slots[i], After(events));
    done := [Move(h, c.slots[i])];
    HandleStepInRun(events, Move(h, c.slots[i]), list.elements);
    hide After, IsRun, Step, Holds, Linked;
  }

  method CopyOntoSlot(list: DoubleLinkedList, c: Client, i: nat, j: nat, ghost events: seq<Event>)
    returns (ghost done: seq<Event>)
    requires Ready(list, c, events) && Usable(c.slots, i) && Usable(c.slots, j)
    modifies c.slots[i], CounterOf(c.slots[j].target)
    ensures done == [CopyAssign(c.slots[i], c.slots[j])] && Ready(list, c, events + done)
    ensures Footprint(list, After(events + done)) <= Footprint(list, After(events))
  {
    c.slots[i].CopyAssign(c.slots[j], After(events));
    done := [CopyAssign(c.slots[i], c.slots[j])];
    HandleStepInRun(events, CopyAssign(c.slots[i], c.slots[j]), list.elements);
    hide After, IsRun, Step, Holds, Linked;
  }

  method MoveOntoSlot(list: DoubleLinkedList, c: Client, i: nat, j: nat, ghost events: seq<Event>)
    returns (ghost done: seq<Event>)
    requires Ready(list, c, events) && Usable(c.slots, i) && Usable(c.slots, j)
    modifies c.slots[i], c.slots[j]
    ensures done == [MoveAssign(c.slots[i], c.slots[j])] && Ready(list, c, events + done)
    ensures Footprint(list, After(events + done)) <= Footprint(list, After(events))
  {
    c.slots[i].MoveAssign(c.slots[j], After(events));
    done := [MoveAssign(c.slots[i], c.slots[j])];
    HandleStepInRun(events, MoveAssign(c.slots[i], c.slots[j]), list.elements);
    hide After, IsRun, Step, Holds, Linked;
  }

  method ReleaseSlot(list: DoubleLinkedList, c: Client, i: nat, ghost events: seq<Event>)
    returns (ghost done: seq<Event>)
    requires Ready(list, c, events) && Usable(c.slots, i)
    modifies CounterOf(c.slots[i].target)
    ensures done == [Destroy(c.slots[i])] && Ready(list, c.(slots := c.slots[i := null]), events + done)
    ensures Footprint(list, After(events + done)) <= Footprint(list, After(events))
  {
    c.slots[i].Destroy(After(events));
    done := [Destroy(c.slots[i])];
    HandleStepInRun(events, Destroy(c.slots[i]), list.elements);
    hide After, IsRun, Step, Holds, Linked;
  }

  // ---------- operations on the store ----------

  lemma HitInRun(list: DoubleLinkedList, events: seq<Event>, e: Element, h: MemberPtr)
    requires IsRun(events) && AtRest(After(events)) && e in After(events).counters && h !in After(events).handles
    ensures var s, t := After(events), After(events + [Hit(e, h)]);
            && IsRun(events + [Hit(e, h)]) && t == Step(s, Hit(e, h)) && AtRest(t)
            && t.handles.Keys == s.handles.Keys + {h}
            && Footprint(list, t) == Footprint(list, s) + {h}
  {
    hide After, IsRun;
    RunExtends(events, Hit(e, h));
  }

  lemma RequestInRun(list: DoubleLinkedList, events: seq<Event>, e: Element, h: MemberPtr)
    requires IsRun(events) && AtRest(After(events)) && e !in After(events).known && h !in After(events).handles
    ensures var s, t := After(events), After(events + [Emplace(e), Hand(e, h)]);
            && IsRun(events + [Emplace(e), Hand(e, h)]) && AtRest(t)
            && t == Step(Step(s, Emplace(e)), Hand(e, h))
            && t.handles.Keys == s.handles.Keys + {h}
            && Footprint(list, t) == Footprint(list, s) + {e, e.useCounter, h}
  {
    hide After, IsRun;
    RunExtends(events, Emplace(e));
    RunExtends(events + [Emplace(e)], Hand(e, h));
    assert events + [Emplace(e)] + [Hand(e, h)] == events + [Emplace(e), Hand(e, h)];
    assert After(events).owed + {e} - {e} == {};
    var known := After(events).known;
    assert CountersOf(known + {e}) == CountersOf(known) + {e.useCounter};
  }

  lemma TracksOneMore(slots: seq<MemberPtr?>, s: State, t: State, h: MemberPtr)
    requires Tracks(slots, s) && h !in s.handles && t.handles.Keys == s.handles.Keys + {h}
    ensures Tracks(slots + [h], t)
  {
  }

  /** What a client needs to go on with one more handle. */
  ghost predicate CanGoOn(list: DoubleLinkedList, c: Client, events: seq<Event>, h: MemberPtr)
    reads list, list.elements, h
  {
    && IsRun(events) && AtRest(After(events)) && Tracks(c.slots, After(events)) && h !in After(events).handles
    && list.Valid() && h.target != null
  }

  lemma ReadyAfterHit(list: DoubleLinkedList, c: Client, events: seq<Event>, h: MemberPtr)
    requires h.target != null && CanGoOn(list, c, events, h) && h.target in After(events).counters
    requires var t := Step(After(events), Hit(h.target, h)); Mirrors(t) && Holds(list.elements, t)
    ensures var done := [Hit(h.target, h)];
            && Ready(list, c.(slots := c.slots + [h]), events + done)
            && Footprint(list, After(events + done)) == Footprint(list, After(events)) + {h}
  {
    hide After, IsRun, Step, Holds, Footprint, Tracks, Mirrors;
    HitInRun(list, events, h.target, h);
    TracksOneMore(c.slots, After(events), After(events + [Hit(h.target, h)]), h);
  }

  lemma ReadyAfterRequest(list: DoubleLinkedList, c: Client, events: seq<Event>, h: MemberPtr)
    requires h.target != null && CanGoOn(list, c, events, h) && h.target !in After(events).known
    requires Requested(list.elements, After(events), h.target, h)
    ensures var done := [Emplace(h.target), Hand(h.target, h)];
            && Ready(list, c.(slots := c.slots + [h]), events + done)
            && Footprint(list, After(events + done))
               == Footprint(list, After(events)) + {h.target, h.target.useCounter, h}
  {
    hide After, IsRun, Step, Holds, Footprint, Tracks, Mirrors;
    RequestInRun(list, events, h.target, h);
    TracksOneMore(c.slots, After(events), After(events + [Emplace(h.target), Hand(h.target, h)]), h);
  }

  lemma FoundLooksUp(primaryKey: string, requestId: nat, elements: seq<Element>, k: nat, h: MemberPtr)
    requires FirstWith(elements, primaryKey, k)
    ensures LooksUp(primaryKey, requestId, elements, elements, [Hit(elements[k], h)], h)
  {
  }

  lemma StoredLooksUp(primaryKey: string, requestId: nat, elements: seq<Element>, e: Element, h: MemberPtr)
    requires !exists x :: x in elements && x.primaryKey == primaryKey
    requires e.primaryKey == primaryKey && e.requestId == requestId
    ensures LooksUp(primaryKey, requestId, elements, elements + [e], [Emplace(e), Hand(e, h)], h)
  {
    assert forall i :: 0 <= i < |elements| ==> elements[i] in elements;
  }

  method LookUpMember(list: DoubleLinkedList, c: Client, primaryKey: string, requestId: nat, ghost events: seq<Event>)
    returns (h: MemberPtr, ghost done: seq<Event>)
    requires Ready(list, c, events) && c.intact
    modifies list, list.elements
    ensures fresh(h) && h.target != null && h.target.primaryKey == primaryKey
    ensures LooksUp(primaryKey, requestId, old(list.elements), list.elements, done, h)
    ensures done != [] && (done[0].Hit? || done[0].Emplace?)
    ensures Ready(list, c.(slots := c.slots + [h]), events + done)
    ensures done[0].Hit? <==> exists e :: e in old(list.elements) && e.primaryKey == primaryKey
    ensures done == if done[0].Hit? then [Hit(h.target, h)] else [Emplace(h.target), Hand(h.target, h)]
    ensures done[0].Hit? ==>
              && list.elements == old(list.elements) && h.target in list.elements
              && Footprint(list, After(events + done)) == Footprint(list, After(events)) + {h}
    ensures done[0].Emplace? ==>
              && list.elements == old(list.elements) + [h.target] && fresh(h.target) && fresh(h.target.useCounter)
              && Footprint(list, After(events + done)) == Footprint(list, After(events)) + {h.target, h.target.useCounter, h}
  {
    hide After, IsRun, Step, Holds, Footprint, Tracks, AtRest, LooksUp;
    hide Tidy, OwnCounters, MirrorsCounters, MirrorsHandles;
    ghost var k;
    var hit;
    h, hit, k := GetMember(list, primaryKey, requestId, After(events));
    if hit {
      done := [Hit(h.target, h)];
      ReadyAfterHit(list, c, events, h);
      FoundLooksUp(primaryKey, requestId, list.elements, k, h);
    } else {
      done := [Emplace(h.target), Hand(h.target, h)];
      ReadyAfterRequest(list, c, events, h);
      StoredLooksUp(primaryKey, requestId, old(list.elements), h.target, h);
    }
  }

  lemma CollectedKeeps(list: DoubleLinkedList, slots: seq<MemberPtr?>, s: State, elements: seq<Element>, flags: seq<bool>)
    requires |elements| == |flags| && AtRest(s) && Tracks(slots, s)
    ensures var t := Collected(s, elements, flags);
            AtRest(t) && Tracks(slots, t) && Footprint(list, t) == Footprint(list, s)
  {
  }

  lemma EndsHeld(list: DoubleLinkedList)
    requires list.Valid()
    ensures list.begin == null <==> list.elements == []
    ensures list.begin == null <==> list.end == null
    ensures EndsInUse(list.elements)
            <==> list.begin == null || (list.begin.useCounter.value > 0 && list.end.useCounter.value > 0)
  {
  }

  lemma FlagsAreUsed(list: DoubleLinkedList, c: Client, events: seq<Event>)
    requires Ready(list, c, events)
    ensures Flags(list.elements) == UsedFlags(After(events), list.elements)
    ensures EndsInUse(list.elements) <==>
              || list.elements == []
              || (Flags(list.elements)[0] && Flags(list.elements)[|list.elements| - 1])
  {
    hide After, IsRun, Flags;
    EndsInUseByFlags(list.elements);
  }

  method CollectStore(list: DoubleLinkedList, c: Client, ghost events: seq<Event>)
    returns (unsubscribed: seq<nat>, intact: bool, ghost done: seq<Event>)
    requires Ready(list, c, events) && c.intact
    modifies list`elements, list.elements
    ensures Ready(list, c.(intact := intact), events + done)
    ensures Collects(After(events), old(list.elements), list.elements, done, unsubscribed, intact)
    ensures done == SweepEvents(old(list.elements), old(Flags(list.elements)))
    ensures Footprint(list, After(events + done)) == Footprint(list, After(events))
  {
    hide After, IsRun, Step, Holds, Footprint, Tracks, SweepEvents, Collected, EndsInUse, InUse, UnusedIds;
    hide Tidy, OwnCounters, MirrorsCounters, MirrorsHandles, Linked;
    EndsHeld(list);
    FlagsAreUsed(list, c, events);
    intact := list.begin == null || (list.begin.useCounter.value > 0 && list.end.useCounter.value > 0);
    done := SweepEvents(list.elements, Flags(list.elements));
    CollectedKeeps(list, c.slots, After(events), list.elements, Flags(list.elements));
    unsubscribed := Collect(list, events);
  }

  // ---------- whole sessions ----------

  lemma SlotInFootprint(list: DoubleLinkedList, c: Client, events: seq<Event>, i: nat)
    requires Ready(list, c, events) && Usable(c.slots, i)
    ensures c.slots[i] in Footprint(list, After(events))
    ensures CounterOf(c.slots[i].target) <= Footprint(list, After(events))
  {
    hide After, IsRun;
    TargetInFootprint(list, After(events), c.slots[i]);
  }

  lemma ElementsInFootprint(list: DoubleLinkedList, c: Client, events: seq<Event>)
    requires Ready(list, c, events)
    ensures list in Footprint(list, After(events))
    ensures forall i :: 0 <= i < |list.elements| ==> list.elements[i] in Footprint(list, After(events))
  {
    hide After, IsRun;
  }

  /** An operation that fills a slot. */
  method Fill(list: DoubleLinkedList, c: Client, op: Op, ghost events: seq<Event>)
    returns (c': Client, ghost done: seq<Event>, ghost added: set<object>)
    requires Ready(list, c, events) && Applies(op, c)
    requires op.LookUp? || op.MakeEmpty? || op.CopyOf? || op.MoveFrom?
    modifies Footprint(list, After(events))
    ensures Performs(
              op, Moment(c, old(list.elements), events), done, [], Moment(c', list.elements, events + done))
    ensures Ready(list, c', events + done)
    ensures fresh(added) && Footprint(list, After(events + done)) <= Footprint(list, After(events)) + added
  {
    hide After, IsRun, Step, Holds, Footprint, Tracks, AtRest, LooksUp;
    hide Tidy, OwnCounters, MirrorsCounters, MirrorsHandles, Linked;
    var h;
    match op {
      case LookUp(primaryKey, requestId) =>
        ElementsInFootprint(list, c, events);
        h, done := LookUpMember(list, c, primaryKey, requestId, events);
        added := if done[0].Hit? then {h} else {h, h.target, h.target.useCounter};
      case MakeEmpty =>
        h, done := Empty(list, c, events);
        added := {h};
      case CopyOf(i) =>
        SlotInFootprint(list, c, events, i);
        h, done := CopySlot(list, c, i, events);
        added := {h};
      case MoveFrom(i) =>
        SlotInFootprint(list, c, events, i);
        h, done := MoveSlot(list, c, i, events);
        added := {h};
    }
    c' := c.(slots := c.slots + [h]);
  }

  method Do(list: DoubleLinkedList, c: Client, op: Op, ghost events: seq<Event>)
    returns (c': Client, unsubscribed: seq<nat>, ghost done: seq<Event>, ghost added: set<object>)
    requires Ready(list, c, events)
    modifies Footprint(list, After(events))
    ensures Performs(
              op, Moment(c, old(list.elements), events), done, unsubscribed, Moment(c', list.elements, events + done))
    ensures Ready(list, c', events + done)
    ensures fresh(added) && Footprint(list, After(events + done)) <= Footprint(list, After(events)) + added
  {
    hide After, IsRun, Step, Holds, Footprint, Tracks, AtRest, LooksUp, Collects;
    hide Tidy, OwnCounters, MirrorsCounters, MirrorsHandles, Linked;
    c', unsubscribed, done, added := c, [], [], {};
    if !Applies(op, c) {
      assert events + done == events;
      return;
    }
    match op {
      case CopyOnto(i, j) =>
        SlotInFootprint(list, c, events, i);
        SlotInFootprint(list, c, events, j);
        done := CopyOntoSlot(list, c, i, j, events);
      case MoveOnto(i, j) =>
        SlotInFootprint(list, c, events, i);
        SlotInFootprint(list, c, events, j);
        done := MoveOntoSlot(list, c, i, j, events);
      case Release(i) =>
        SlotInFootprint(list, c, events, i);
        done := ReleaseSlot(list, c, i, events);
        c' := c.(slots := c.slots[i := null]);
      case CollectUnused =>
        ElementsInFootprint(list, c, events);
        var intact;
        unsubscribed, intact, done := CollectStore(list, c, events);
        c' := c.(intact := intact);
      case _ =>
        c', done, added := Fill(list, c, op, events);
    }
  }

  /** What holds of every moment: the events are a run, and the list holds the stored entries, each once. */
  ghost predicate Coherent(m: Moment) {
    && IsRun(m.events) && AtRest(After(m.events)) && Distinct(m.elements) && Holds(m.elements, After(m.events))
  }

  /**
   A record of a session: what it was before and after each operation, the events of each, and the
   ids that each unsubscribed.
   */
  ghost predicate Records(ops: seq<Op>, moments: seq<Moment>, log: seq<seq<Event>>, unsubscribed: seq<seq<nat>>) {
    && |moments| == |ops| + 1 && |log| == |unsubscribed| == |ops|
    && moments[0] == Moment(Client([], true), [], [])
    && (forall k :: 0 <= k <= |ops| ==> Coherent(moments[k]))
    && forall k :: 0 <= k < |ops| ==> Performs(ops[k], moments[k], log[k], unsubscribed[k], moments[k + 1])
  }

  lemma RecordsOneMore(
    ops: seq<Op>, moments: seq<Moment>, log: seq<seq<Event>>, unsubscribed: seq<seq<nat>>, n: nat,
    done: seq<Event>, ids: seq<nat>, m: Moment)
    requires n < |ops| && Records(ops[..n], moments, log, unsubscribed) && Performs(ops[n], moments[n], done, ids, m)
    requires Coherent(m)
    ensures Records(ops[..n + 1], moments + [m], log + [done], unsubscribed + [ids])
  {
    hide Performs, Coherent;
    forall k | 0 <= k <= n + 1 ensures Coherent((moments + [m])[k]) {
      if k < n + 1 {
        assert Coherent(moments[k]);
      }
    }
    forall k | 0 <= k < n + 1
      ensures Performs(
                ops[..n + 1][k], (moments + [m])[k], (log + [done])[k], (unsubscribed + [ids])[k], (moments + [m])[k + 1])
    {
      if k < n {
        assert Performs(ops[..n][k], moments[k], log[k], unsubscribed[k], moments[k + 1]);
      }
    }
  }

  /** The accounting law, for the counter objects of all entries in the list. */
  ghost predicate Accounted(list: DoubleLinkedList, events: seq<Event>)
    reads list, list.elements, set e | e in list.elements :: e.useCounter
  {
    forall i :: 0 <= i < |list.elements| ==>
      var e := list.elements[i];
      e.useCounter.value + Hits(events, e)
      == |Pointing(After(events).handles, e)| + Overwrites(events, e) + Saturations(events, e)
  }

  lemma ReadyIsAccounted(list: DoubleLinkedList, c: Client, events: seq<Event>)
    requires Ready(list, c, events)
    ensures Accounted(list, events)
  {
    hide After, IsRun, Pointing, Hits, Overwrites, Saturations;
    forall i | 0 <= i < |list.elements|
      ensures var e := list.elements[i];
              e.useCounter.value + Hits(events, e)
              == |Pointing(After(events).handles, e)| + Overwrites(events, e) + Saturations(events, e)
    {
      HeapAccounting(events, list.elements[i]);
    }
  }

  /** Every handle a client holds is empty or points to an entry that is still in the list, with a positive counter. */
  ghost predicate HandlesSafe(list: DoubleLinkedList, slots: seq<MemberPtr?>)
    reads list, list.elements, slots, set e | e in list.elements :: e.useCounter
  {
    forall i :: 0 <= i < |slots| && slots[i] != null && slots[i].target != null ==>
      slots[i].target in list.elements && slots[i].target.useCounter.value > 0
  }

  lemma ReadyIsSafe(list: DoubleLinkedList, c: Client, events: seq<Event>)
    requires Ready(list, c, events) && NoHits(events)
    ensures HandlesSafe(list, c.slots)
  {
    hide After, IsRun, NoHits;
    forall i | 0 <= i < |c.slots| && c.slots[i] != null && c.slots[i].target != null
      ensures c.slots[i].target in list.elements && c.slots[i].target.useCounter.value > 0
    {
      HeapHandlesAreSafe(events, c.slots[i]);
    }
  }

  lemma ReadyIsCoherent(list: DoubleLinkedList, c: Client, events: seq<Event>)
    requires Ready(list, c, events)
    ensures Coherent(Moment(c, list.elements, events))
  {
    hide After, IsRun, Mirrors;
  }

  lemma StartsReady(list: DoubleLinkedList, ops: seq<Op>)
    requires list.Valid() && list.elements == []
    ensures Records(ops[..0], [Moment(Client([], true), [], [])], [], [])
    ensures Ready(list, Client([], true), []) && Footprint(list, After([])) == {list}
  {
    EmptyStore();
  }

  /**
   A whole session from the empty store. Whatever the client does, its operations are a run that the
   heap mirrors at the end, the accounting law holds of the counter objects in the list, and if no
   lookup found its member in the store every handle held is safe.
   */
  method Perform(ops: seq<Op>)
    returns (list: DoubleLinkedList, c: Client, unsubscribed: seq<seq<nat>>,
             ghost moments: seq<Moment>, ghost log: seq<seq<Event>>)
    ensures Records(ops, moments, log, unsubscribed)
    ensures var m := moments[|ops|];
            && m.client == c && m.elements == list.elements
            && Ready(list, c, m.events) && Accounted(list, m.events)
            && (NoHits(m.events) ==> HandlesSafe(list, c.slots))
  {
    hide After, IsRun, Step, Holds, Footprint, Tracks, AtRest, Performs, Records, Coherent;
    hide Tidy, OwnCounters, MirrorsCounters, MirrorsHandles, Linked, Accounted, HandlesSafe, NoHits;
    list := new DoubleLinkedList();
    c, unsubscribed, moments, log := Client([], true), [], [Moment(Client([], true), [], [])], [];
    StartsReady(list, ops);
    var n := 0;
    ghost var events: seq<Event> := [];
    while n < |ops|
      invariant 0 <= n <= |ops|
      invariant Records(ops[..n], moments, log, unsubscribed)
      invariant |moments| == n + 1 && moments[n] == Moment(c, list.elements, events)
      invariant Ready(list, c, events) && fresh(Footprint(list, After(events)))
    {
      ghost var done, added;
      var ids;
      c, ids, done, added := Do(list, c, ops[n], events);
      events := events + done;
      ghost var m := Moment(c, list.elements, events);
      ReadyIsCoherent(list, c, events);
      RecordsOneMore(ops, moments, log, unsubscribed, n, done, ids, m);
      moments, log, unsubscribed := moments + [m], log + [done], unsubscribed + [ids];
      n := n + 1;
    }
    assert ops[..n] == ops;
    ReadyIsAccounted(list, c, events);
    if NoHits(events) {
      ReadyIsSafe(list, c, events);
    }
  }

  // ---------- operations in a session ----------

  /**
   While the list's ends are in place no lookup is skipped: it fills one more slot, with the first entry
   of its key or, failing that, with a new one stored at the end under its request id.
   */
  lemma LookUpsTakeEffect(op: Op, m: Moment, done: seq<Event>, ids: seq<nat>, m': Moment)
    requires Performs(op, m, done, ids, m') && op.LookUp? && m.client.intact
    ensures var slots, n := m'.client.slots, |m.client.slots|;
            && |slots| == n + 1 && slots[..n] == m.client.slots && slots[n] != null && m'.client.intact && ids == []
            && (forall i :: 0 <= i < |m.elements| && m.elements[i].primaryKey == op.primaryKey
                            && (forall j :: 0 <= j < i ==> m.elements[j].primaryKey != op.primaryKey)
                            ==> m'.elements == m.elements && done == [Hit(m.elements[i], slots[n])])
            && ((forall i :: 0 <= i < |m.elements| ==> m.elements[i].primaryKey != op.primaryKey) ==>
                  exists e :: e in m'.elements && m'.elements == m.elements + [e]
                              && e.primaryKey == op.primaryKey && e.requestId == op.requestId
                              && done == [Emplace(e), Hand(e, slots[n])])
  {
    hide LooksUp;
    var n := |m.client.slots|;
    LookUpTakesEffect(op.primaryKey, op.requestId, m.elements, m'.elements, done, m'.client.slots[n]);
  }

  /** No operation on filled slots is skipped: it is the one event it asks for, and leaves the list alone. */
  lemma OperationsTakeEffect(op: Op, m: Moment, done: seq<Event>, ids: seq<nat>, m': Moment)
    requires Performs(op, m, done, ids, m') && !op.LookUp? && !op.CollectUnused?
    ensures m'.elements == m.elements && m'.client.intact == m.client.intact && ids == []
    ensures var slots, n := m.client.slots, |m.client.slots|;
            match op
            case MakeEmpty =>
              |m'.client.slots| == n + 1 && m'.client.slots[..n] == slots && done == [Default(m'.client.slots[n])]
            case CopyOf(i) =>
              i < n && slots[i] != null ==>
                |m'.client.slots| == n + 1 && m'.client.slots[..n] == slots && done == [Copy(m'.client.slots[n], slots[i])]
            case MoveFrom(i) =>
              i < n && slots[i] != null ==>
                |m'.client.slots| == n + 1 && m'.client.slots[..n] == slots && done == [Move(m'.client.slots[n], slots[i])]
            case CopyOnto(i, j) =>
              i < n && slots[i] != null && j < n && slots[j] != null ==>
                m'.client == m.client && done == [CopyAssign(slots[i], slots[j])]
            case MoveOnto(i, j) =>
              i < n && slots[i] != null && j < n && slots[j] != null ==>
                m'.client == m.client && done == [MoveAssign(slots[i], slots[j])]
            case Release(i) =>
              i < n && slots[i] != null ==> m'.client.slots == slots[i := null] && done == [Destroy(slots[i])]
            case _ => true
  {
    hide Collects, LooksUp;
  }

  lemma LookUpTakesEffect(
    k: string, id: nat, elements: seq<Element>, elements': seq<Element>, done: seq<Event>, h: MemberPtr)
    requires LooksUp(k, id, elements, elements', done, h)
    ensures forall i :: 0 <= i < |elements| && elements[i].primaryKey == k
                        && (forall j :: 0 <= j < i ==> elements[j].primaryKey != k)
                        ==> elements' == elements && done == [Hit(elements[i], h)]
    ensures (forall i :: 0 <= i < |elements| ==> elements[i].primaryKey != k) ==>
              exists e :: e in elements' && elements' == elements + [e] && e.primaryKey == k && e.requestId == id
                          && done == [Emplace(e), Hand(e, h)]
  {
    forall i | 0 <= i < |elements| && elements[i].primaryKey == k
               && (forall j :: 0 <= j < i ==> elements[j].primaryKey != k)
      ensures elements' == elements && done == [Hit(elements[i], h)]
    {
      assert FirstWith(elements, k, i);
      var x: nat :| FirstWith(elements, k, x) && done == [Hit(elements[x], h)];
      assert x == i;
    }
    if forall i :: 0 <= i < |elements| ==> elements[i].primaryKey != k {
      assert forall i: nat :: !FirstWith(elements, k, i);
      var e := elements'[|elements|];
      assert elements' == elements + [e] && e in elements';
    }
  }

  // ---------- collections in a session ----------

  /** The entry is stored and has a positive counter. */
  ghost predicate Used(s: State, e: Element) {
    e in s.counters && s.counters[e] > 0
  }

  ghost predicate IsCollection(op: Op, m: Moment, done: seq<Event>, ids: seq<nat>, m': Moment) {
    op.CollectUnused? && m.client.intact && Coherent(m) && Performs(op, m, done, ids, m')
  }

  /** A collection keeps the entries with a positive counter, in their order, and nothing else. */
  lemma CollectionKeeps(op: Op, m: Moment, done: seq<Event>, ids: seq<nat>, m': Moment) returns (kept: seq<nat>)
    requires IsCollection(op, m, done, ids, m')
    ensures Ascending(kept)
    ensures forall x: nat :: x in kept <==> x < |m.elements| && Used(After(m.events), m.elements[x])
    ensures |m'.elements| == |kept|
    ensures forall i :: 0 <= i < |kept| ==> kept[i] < |m.elements| && m'.elements[i] == m.elements[kept[i]]
    ensures m'.client.intact <==>
              || m.elements == []
              || (Used(After(m.events), m.elements[0]) && Used(After(m.events), m.elements[|m.elements| - 1]))
  {
    var s, es := After(m.events), m.elements;
    hide Coherent, After, SweepEvents, InUse, UnusedIds, Ascending;
    kept := InUsePositions(es, UsedFlags(s, es));
  }

  /** A collection unsubscribes the ids of the entries whose counter is zero, in their order, and no others. */
  lemma CollectionUnsubscribes(op: Op, m: Moment, done: seq<Event>, ids: seq<nat>, m': Moment)
    returns (gone: seq<nat>)
    requires IsCollection(op, m, done, ids, m')
    ensures Ascending(gone)
    ensures forall x: nat :: x in gone <==> x < |m.elements| && !Used(After(m.events), m.elements[x])
    ensures |ids| == |gone|
    ensures forall i :: 0 <= i < |gone| ==> gone[i] < |m.elements| && ids[i] == m.elements[gone[i]].requestId
  {
    var s, es := After(m.events), m.elements;
    hide Coherent, After, SweepEvents, InUse, UnusedIds, Ascending;
    gone := UnusedPositions(es, UsedFlags(s, es));
  }

  /** Every entry is checked in turn, in the list's order, and erased right after its check when its counter is zero. */
  lemma CollectionChecks(op: Op, m: Moment, done: seq<Event>, ids: seq<nat>, m': Moment) returns (at: seq<nat>)
    requires IsCollection(op, m, done, ids, m')
    ensures |at| == |m.elements| + 1 && at[0] == 0 && at[|m.elements|] == |done|
    ensures forall x: nat :: x < |m.elements| ==>
              && at[x] < |done| && done[at[x]] == Check(m.elements[x])
              && at[x + 1] == at[x] + (if Used(After(m.events), m.elements[x]) then 1 else 2) <= |done|
              && (!Used(After(m.events), m.elements[x]) ==> done[at[x] + 1] == Erase(m.elements[x]))
  {
    var s, es := After(m.events), m.elements;
    hide Coherent, After, SweepEvents, InUse, UnusedIds;
    at := SweepEventPositions(es, UsedFlags(s, es));
  }

  lemma AfterCollection(op: Op, m: Moment, done: seq<Event>, ids: seq<nat>, m': Moment)
    requires IsCollection(op, m, done, ids, m')
    ensures var s, es := After(m.events), m.elements;
            var flags := UsedFlags(s, es);
            && Flagged(s, es, flags) && Distinct(es)
            && After(m'.events) == Collected(s, es, flags) && m'.elements == InUse(es, flags)
  {
    hide After, IsRun, SweepEvents, InUse, UnusedIds, Collected;
    SweepIsRun(m.events, m.elements, UsedFlags(After(m.events), m.elements));
  }

  /** After a collection no entry in the list has a zero counter. */
  lemma CollectionLeavesUsed(op: Op, m: Moment, done: seq<Event>, ids: seq<nat>, m': Moment, e: Element)
    requires IsCollection(op, m, done, ids, m') && e in m'.elements
    ensures Used(After(m'.events), e)
  {
    hide *;
    AfterCollection(op, m, done, ids, m');
    var s, es := After(m.events), m.elements;
    var flags := UsedFlags(s, es);
    InUseIsPart(es, flags);
    var i :| 0 <= i < |es| && es[i] == e && flags[i];
    CollectedKeepsUsed(s, es, flags, i);
  }

  lemma CollectedKeepsUsed(s: State, elements: seq<Element>, flags: seq<bool>, i: nat)
    requires Flagged(s, elements, flags) && Distinct(elements) && i < |elements| && flags[i]
    ensures Used(Collected(s, elements, flags), elements[i])
  {
  }

  /** An entry in the list was stored by an earlier lookup of its key, under the id of that lookup. */
  ghost predicate StoredBy(ops: seq<Op>, log: seq<seq<Event>>, k: nat, e: Element) {
    && k < |ops| && k < |log| && ops[k] == LookUp(e.primaryKey, e.requestId)
    && |log[k]| == 2 && log[k][0] == Emplace(e) && log[k][1].Hand? && log[k][1].entry == e
  }

  lemma PerformedElements(op: Op, m: Moment, done: seq<Event>, ids: seq<nat>, m': Moment, e: Element)
    requires Performs(op, m, done, ids, m') && e in m'.elements && e !in m.elements
    ensures op == LookUp(e.primaryKey, e.requestId)
    ensures |done| == 2 && done[0] == Emplace(e) && done[1].Hand? && done[1].entry == e
  {
    hide After, SweepEvents, UnusedIds;
    if op.CollectUnused? && Applies(op, m.client) {
      InUseIsPart(m.elements, UsedFlags(After(m.events), m.elements));
    }
  }

  lemma {:induction false} ElementsWereRequested(
    ops: seq<Op>, moments: seq<Moment>, log: seq<seq<Event>>, unsubscribed: seq<seq<nat>>, n: nat, e: Element)
    returns (k: nat)
    requires Records(ops, moments, log, unsubscribed) && n <= |ops| && e in moments[n].elements
    ensures k < n && StoredBy(ops, log, k, e)
  {
    hide Performs, Coherent;
    if e in moments[n - 1].elements {
      k := ElementsWereRequested(ops, moments, log, unsubscribed, n - 1, e);
    } else {
      k := n - 1;
      PerformedElements(ops[k], moments[k], log[k], unsubscribed[k], moments[n], e);
    }
  }

  /**
   Over a whole session: a collection unsubscribes, one for one and in the list's order, the ids under
   which earlier lookups requested the entries whose counter is zero, which are those that it erases.
   */
  lemma UnsubscribedAsRequested(
    ops: seq<Op>, moments: seq<Moment>, log: seq<seq<Event>>, unsubscribed: seq<seq<nat>>, n: nat)
    returns (gone: seq<nat>, requests: seq<nat>)
    requires Records(ops, moments, log, unsubscribed) && n < |ops| && ops[n].CollectUnused? && moments[n].client.intact
    ensures Ascending(gone)
    ensures forall x: nat :: x in gone <==>
              x < |moments[n].elements| && !Used(After(moments[n].events), moments[n].elements[x])
    ensures |unsubscribed[n]| == |gone| == |requests|
    ensures forall i :: 0 <= i < |gone| ==>
              && gone[i] < |moments[n].elements| && requests[i] < n
              && StoredBy(ops, log, requests[i], moments[n].elements[gone[i]])
              && unsubscribed[n][i] == ops[requests[i]].requestId
    ensures forall e: Element :: Erase(e) in log[n] <==>
              exists x :: 0 <= x < |moments[n].elements| && moments[n].elements[x] == e && x in gone
  {
    hide Performs, Coherent, Ascending, After, Used;
    var m := moments[n];
    gone := CollectionUnsubscribes(ops[n], m, log[n], unsubscribed[n], moments[n + 1]);
    requests := Requests(ops, moments, log, unsubscribed, n, gone);
    forall e: Element | true
      ensures Erase(e) in log[n] <==> exists x :: 0 <= x < |m.elements| && m.elements[x] == e && x in gone
    {
      ErasedAre(ops[n], m, log[n], unsubscribed[n], moments[n + 1], e);
    }
  }

  ghost predicate UnusedIn(elements: seq<Element>, flags: seq<bool>, e: Element)
    requires |elements| == |flags|
  {
    exists x :: 0 <= x < |elements| && elements[x] == e && !flags[x]
  }

  lemma UnusedInOneMore(elements: seq<Element>, flags: seq<bool>, n: nat, e: Element)
    requires |elements| == |flags| && n == |elements| - 1
    ensures UnusedIn(elements, flags, e) <==> UnusedIn(elements[..n], flags[..n], e) || (elements[n] == e && !flags[n])
  {
    if UnusedIn(elements[..n], flags[..n], e) {
      var x :| 0 <= x < n && elements[..n][x] == e && !flags[..n][x];
      assert elements[x] == e && !flags[x];
    }
    if UnusedIn(elements, flags, e) {
      var x :| 0 <= x < |elements| && elements[x] == e && !flags[x];
      assert x < n ==> elements[..n][x] == e && !flags[..n][x];
    }
  }

  lemma {:induction false} SweepErases(elements: seq<Element>, flags: seq<bool>, e: Element)
    requires |elements| == |flags|
    ensures Erase(e) in SweepEvents(elements, flags) <==> UnusedIn(elements, flags, e)
  {
    if elements != [] {
      var n := |elements| - 1;
      var before, last := SweepEvents(elements[..n], flags[..n]), EntryEvents(elements[n], flags[n]);
      assert SweepEvents(elements, flags) == before + last;
      assert Erase(e) in last <==> elements[n] == e && !flags[n];
      hide SweepEvents, EntryEvents, UnusedIn;
      SweepErases(elements[..n], flags[..n], e);
      UnusedInOneMore(elements, flags, n, e);
    }
  }

  lemma ErasedAre(op: Op, m: Moment, done: seq<Event>, ids: seq<nat>, m': Moment, e: Element)
    requires IsCollection(op, m, done, ids, m')
    ensures Erase(e) in done <==> exists x :: 0 <= x < |m.elements| && m.elements[x] == e && !Used(After(m.events), e)
  {
    hide Coherent, After, SweepEvents, InUse, UnusedIds;
    SweepErases(m.elements, UsedFlags(After(m.events), m.elements), e);
  }

  lemma Requests(
    ops: seq<Op>, moments: seq<Moment>, log: seq<seq<Event>>, unsubscribed: seq<seq<nat>>, n: nat, gone: seq<nat>)
    returns (requests: seq<nat>)
    requires Records(ops, moments, log, unsubscribed) && n < |ops|
    requires |unsubscribed[n]| == |gone|
    requires forall i :: 0 <= i < |gone| ==>
               gone[i] < |moments[n].elements| && unsubscribed[n][i] == moments[n].elements[gone[i]].requestId
    ensures |requests| == |gone|
    ensures forall i :: 0 <= i < |gone| ==>
              && requests[i] < n && StoredBy(ops, log, requests[i], moments[n].elements[gone[i]])
              && unsubscribed[n][i] == ops[requests[i]].requestId
  {
    hide Performs, Coherent;
    requests := [];
    while |requests| < |gone|
      invariant |requests| <= |gone|
      invariant forall i :: 0 <= i < |requests| ==>
                  && requests[i] < n && StoredBy(ops, log, requests[i], moments[n].elements[gone[i]])
                  && unsubscribed[n][i] == ops[requests[i]].requestId
    {
      var e := moments[n].elements[gone[|requests|]];
      var k := ElementsWereRequested(ops, moments, log, unsubscribed, n, e);
      requests := requests + [k];
    }
  }

  /** No entry is erased twice in a session, so no request is unsubscribed twice. */
  lemma ErasedOnceInSession(
    ops: seq<Op>, moments: seq<Moment>, log: seq<seq<Event>>, unsubscribed: seq<seq<nat>>, i: nat, j: nat)
    requires Records(ops, moments, log, unsubscribed)
    requires var events := moments[|ops|].events; i < j < |events| && events[i].Erase? && events[j].Erase?
    ensures moments[|ops|].events[i].entry != moments[|ops|].events[j].entry
  {
    hide Performs;
    assert Coherent(moments[|ops|]);
    ErasedOnce(moments[|ops|].events, i, j);
  }

  // ---------- a session that ends badly ----------

  /** Once its creator has given it up, the entry's counter is zero although it was looked up again. */
  lemma LookedUpIsUnused(list: DoubleLinkedList, c: Client, e: Element, g: MemberPtr, h: MemberPtr)
    requires g != h && Ready(list, c, [Emplace(e), Hand(e, g), Hit(e, h), Destroy(g)])
    ensures e.useCounter.value == 0
  {
    var events := HitRun(e, g, h);
    HitLeavesDanglingHandle(e, g, h);
    assert events[..4] == [Emplace(e), Hand(e, g), Hit(e, h), Destroy(g)];
    hide After, IsRun;
    PrefixStep(events, 4);
    PrefixStep(events, 5);
  }

  lemma LookedUpDangles(list: DoubleLinkedList, c: Client, e: Element, g: MemberPtr, h: MemberPtr)
    requires g != h && Ready(list, c, HitRun(e, g, h))
    ensures h.target == e && e !in list.elements
  {
    hide After, IsRun, HitRun;
    HitLeavesDanglingHandle(e, g, h);
  }

  lemma SweepOfOne(e: Element)
    requires e.useCounter.value == 0
    ensures SweepEvents([e], Flags([e])) == [Check(e), Erase(e)]
  {
    assert Flags([e])[..0] == [] && [e][..0] == [];
  }

  method LookUpOnce(primaryKey: string, requestId: nat)
    returns (list: DoubleLinkedList, g: MemberPtr, ghost events: seq<Event>)
    ensures fresh(list) && fresh(g) && g.target != null && g.target.primaryKey == primaryKey
    ensures fresh(g.target) && fresh(g.target.useCounter) && list.elements == [g.target]
    ensures events == [Emplace(g.target), Hand(g.target, g)] && Ready(list, Client([g], true), events)
  {
    hide After, IsRun, Step, Holds, Footprint, Tracks, AtRest, LooksUp;
    hide Tidy, OwnCounters, MirrorsCounters, MirrorsHandles, Linked;
    list := new DoubleLinkedList();
    StartsReady(list, []);
    g, events := LookUpMember(list, Client([], true), primaryKey, requestId, []);
    assert [] + events == events && [] + [g] == [g];
  }

  method LookUpTwice(primaryKey: string, requestId: nat)
    returns (list: DoubleLinkedList, g: MemberPtr, h: MemberPtr, ghost events: seq<Event>)
    ensures fresh(list) && fresh(g) && fresh(h) && g != h && g.target != null && h.target == g.target
    ensures fresh(g.target) && fresh(g.target.useCounter) && list.elements == [g.target]
    ensures events == [Emplace(g.target), Hand(g.target, g), Hit(g.target, h)]
    ensures Ready(list, Client([g, h], true), events)
  {
    hide After, IsRun, Step, Holds, Footprint, Tracks, AtRest, LooksUp;
    hide Tidy, OwnCounters, MirrorsCounters, MirrorsHandles, Linked;
    ghost var done;
    list, g, events := LookUpOnce(primaryKey, requestId);
    assert g.target in list.elements;
    h, done := LookUpMember(list, Client([g], true), primaryKey, requestId, events);
    assert [g] + [h] == [g, h];
    events := events + done;
  }

  /** The second of two lookups of the same member is left without its entry once the first handle is gone. */
  method SecondLookUpDangles(primaryKey: string, requestId: nat) returns (list: DoubleLinkedList, h: MemberPtr)
    ensures h.target != null && h.target !in list.elements
  {
    hide After, IsRun, Step, Holds, Footprint, Tracks, AtRest, SweepEvents, Collects;
    hide Tidy, OwnCounters, MirrorsCounters, MirrorsHandles, Linked;
    var g;
    ghost var events, d3, d4;
    list, g, h, events := LookUpTwice(primaryKey, requestId);
    ghost var e := g.target;
    d3 := ReleaseSlot(list, Client([g, h], true), 0, events);
    assert events + d3 == [Emplace(e), Hand(e, g), Hit(e, h), Destroy(g)];
    assert [g, h][0 := null] == [null, h];
    LookedUpIsUnused(list, Client([null, h], true), e, g, h);
    SweepOfOne(e);
    var unsubscribed, intact;
    unsubscribed, intact, d4 := CollectStore(list, Client([null, h], true), events + d3);
    assert events + d3 + d4 == HitRun(e, g, h);
    LookedUpDangles(list, Client([null, h], intact), e, g, h);
  }
}
