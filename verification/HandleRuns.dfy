/**
 Reference counting of member handles and the collector that removes unused entries, as a transition
 system over interleaved steps of all threads. Every operation on a counter holds the counter's
 mutex, so each step below is atomic; the collector's check and its erasure are two steps.

 Two kinds of event upset the count and are recorded: a cache hit makes a handle without counting
 it, and an assignment over a live handle forgets the old target without giving its count back.
 */
module HandleRuns {
  import opened Wrappers

  type Entry = object   // an entry of the store, never reused
  type Handle = object  // a handle variable

  datatype State = State(
    counters: map<Entry, nat>,          // use counters of the entries in the store
    handles: map<Handle, Option<Entry>>,  // what each live handle variable points to
    owed: set<Entry>,                   // entries whose creator has not received its handle yet
    condemned: Option<Entry>,           // the entry the collector has found unused
    known: set<Entry>,                  // all entries ever created
    hits: map<Entry, nat>,              // handles made by cache hits
    overwritten: map<Entry, nat>,       // handles overwritten by assignment
    saturated: map<Entry, nat>)         // decreases of a counter that was zero

  const EMPTY := State(map[], map[], {}, None, {}, map[], map[], map[])

  datatype Event =
    | Emplace(entry: Entry)                   // a requested member is stored with counter one
    | Hand(entry: Entry, handle: Handle)      // and its creator receives a handle
    | Hit(entry: Entry, handle: Handle)       // a lookup finds the member in the store
    | Default(handle: Handle)
    | Copy(handle: Handle, from: Handle)
    | Move(handle: Handle, from: Handle)
    | CopyAssign(handle: Handle, from: Handle)
    | MoveAssign(handle: Handle, from: Handle)
    | Destroy(handle: Handle)
    | Check(entry: Entry)                     // the collector reads the counter
    | Erase(entry: Entry)                     // and erases what it found unused

  // ---------- building blocks ----------

  function Put(s: State, h: Handle, target: Option<Entry>): State {
    s.(handles := s.handles[h := target])
  }

  function Drop(s: State, h: Handle): State {
    s.(handles := s.handles - {h})
  }

  function Count(m: map<Entry, nat>, e: Entry): nat {
    if e in m then m[e] else 0
  }

  function Increase(s: State, target: Option<Entry>): State {
    if target.Some? && target.value in s.counters
    then s.(counters := s.counters[target.value := s.counters[target.value] + 1])
    else s
  }

  function Decrease(s: State, target: Option<Entry>): State {
    if target.Some? && target.value in s.counters then
      var e := target.value;
      if s.counters[e] > 0 then s.(counters := s.counters[e := s.counters[e] - 1])
      else s.(saturated := s.saturated[e := Count(s.saturated, e) + 1])
    else s
  }

  /** An assignment is about to overwrite a handle. */
  function Overwrite(s: State, target: Option<Entry>): State {
    if target.Some?
    then s.(overwritten := s.overwritten[target.value := Count(s.overwritten, target.value) + 1])
    else s
  }

  lemma CountingKeepsKeys(s: State, t: Option<Entry>)
    ensures Increase(s, t) == s.(counters := Increase(s, t).counters)
    ensures Increase(s, t).counters.Keys == s.counters.Keys
    ensures Decrease(s, t) == s.(counters := Decrease(s, t).counters, saturated := Decrease(s, t).saturated)
    ensures Decrease(s, t).counters.Keys == s.counters.Keys
    ensures Overwrite(s, t) == s.(overwritten := Overwrite(s, t).overwritten)
  {
  }

  // ---------- steps ----------

  /** What a step needs: variables that exist, or do not yet; a collector that is where it should be. */
  predicate Enabled(s: State, ev: Event) {
    match ev
    case Emplace(e) => e !in s.known
    case Hand(e, h) => e in s.owed && h !in s.handles
    case Hit(e, h) => e in s.counters && h !in s.handles
    case Default(h) => h !in s.handles
    case Copy(h, f) => h !in s.handles && f in s.handles
    case Move(h, f) => h !in s.handles && f in s.handles
    case CopyAssign(h, f) => h in s.handles && f in s.handles
    case MoveAssign(h, f) => h in s.handles && f in s.handles
    case Destroy(h) => h in s.handles
    case Check(e) => s.condemned == None && e in s.counters
    case Erase(e) => s.condemned == Some(e)
  }

  function Step(s: State, ev: Event): State
    requires Enabled(s, ev)
  {
    match ev
    case Emplace(e) =>
      s.(counters := s.counters[e := 1], owed := s.owed + {e}, known := s.known + {e})
    case Hand(e, h) =>
      Put(s.(owed := s.owed - {e}), h, Some(e))
    case Hit(e, h) =>
      Put(s.(hits := s.hits[e := Count(s.hits, e) + 1]), h, Some(e))
    case Default(h) =>
      Put(s, h, None)
    case Copy(h, f) =>
      Increase(Put(s, h, s.handles[f]), s.handles[f])
    case Move(h, f) =>
      Put(Put(s, h, s.handles[f]), f, None)
    case CopyAssign(h, f) =>
      Increase(Put(Overwrite(s, s.handles[h]), h, s.handles[f]), s.handles[f])
    case MoveAssign(h, f) =>
      var t := s.handles[f];
      var put := Put(Overwrite(s, s.handles[h]), h, t);
      if t.None? then put else Put(put, f, None)
    case Destroy(h) =>
      Drop(Decrease(s, s.handles[h]), h)
    case Check(e) =>
      s.(condemned := if s.counters[e] > 0 then None else Some(e))
    case Erase(e) =>
      s.(counters := s.counters - {e}, condemned := None)
  }

  ghost predicate IsRun(events: seq<Event>) {
    events != [] ==>
      var n := |events| - 1;
      IsRun(events[..n]) && Enabled(After(events[..n]), events[n])
  }

  ghost function After(events: seq<Event>): State {
    if events == [] then EMPTY
    else
      var n := |events| - 1;
      var before := After(events[..n]);
      if Enabled(before, events[n]) then Step(before, events[n]) else before
  }

  // ---------- the accounting law ----------

  ghost function Pointing(handles: map<Handle, Option<Entry>>, e: Entry): set<Handle> {
    set h | h in handles && handles[h] == Some(e)
  }

  /** Handles that point to the entry, the one owed to its creator included. */
  ghost function Live(s: State, e: Entry): nat {
    |Pointing(s.handles, e)| + if e in s.owed then 1 else 0
  }

  ghost function Balance(s: State, e: Entry): int
    requires e in s.counters
  {
    s.counters[e] + Count(s.hits, e) - Live(s, e) - Count(s.overwritten, e) - Count(s.saturated, e)
  }

  function Is(target: Option<Entry>, e: Entry): int {
    if target == Some(e) then 1 else 0
  }

  function Had(s: State, h: Handle, e: Entry): int {
    if h in s.handles then Is(s.handles[h], e) else 0
  }

  lemma PutPointing(handles: map<Handle, Option<Entry>>, h: Handle, t: Option<Entry>, e: Entry)
    ensures |Pointing(handles[h := t], e)|
         == |Pointing(handles, e)| + Is(t, e) - if h in handles then Is(handles[h], e) else 0
  {
    var before, now := Pointing(handles, e), Pointing(handles[h := t], e);
    if t == Some(e) {
      assert now == before + {h};
    } else {
      assert now == before - {h};
    }
  }

  lemma PutBalance(s: State, h: Handle, t: Option<Entry>, e: Entry)
    requires e in s.counters
    ensures Balance(Put(s, h, t), e) == Balance(s, e) + Had(s, h, e) - Is(t, e)
  {
    hide Pointing, Is;
    PutPointing(s.handles, h, t, e);
  }

  lemma DropBalance(s: State, h: Handle, e: Entry)
    requires e in s.counters
    ensures Balance(Drop(s, h), e) == Balance(s, e) + Had(s, h, e)
  {
    assert Pointing(s.handles - {h}, e) == Pointing(s.handles, e) - {h};
  }

  lemma IncreaseBalance(s: State, t: Option<Entry>, e: Entry)
    requires e in s.counters
    ensures e in Increase(s, t).counters && Balance(Increase(s, t), e) == Balance(s, e) + Is(t, e)
  {
    hide Pointing;
  }

  lemma DecreaseBalance(s: State, t: Option<Entry>, e: Entry)
    requires e in s.counters
    ensures e in Decrease(s, t).counters && Balance(Decrease(s, t), e) == Balance(s, e) - Is(t, e)
  {
    DecreaseCounts(s, t, e);
    hide Pointing, Decrease, Count;
  }

  lemma DecreaseCounts(s: State, t: Option<Entry>, e: Entry)
    requires e in s.counters
    ensures var d := Decrease(s, t);
            && d.handles == s.handles && d.owed == s.owed && d.hits == s.hits && d.overwritten == s.overwritten
            && e in d.counters
            && d.counters[e] - Count(d.saturated, e) == s.counters[e] - Count(s.saturated, e) - Is(t, e)
  {
  }

  lemma OverwriteBalance(s: State, t: Option<Entry>, e: Entry)
    requires e in s.counters
    ensures Balance(Overwrite(s, t), e) == Balance(s, e) - Is(t, e)
  {
    hide Pointing;
  }

  /** What was never created is nowhere mentioned. */
  ghost predicate Tidy(s: State) {
    && s.counters.Keys <= s.known
    && s.owed <= s.known
    && (forall h :: h in s.handles && s.handles[h].Some? ==> s.handles[h].value in s.known)
    && s.hits.Keys <= s.known && s.overwritten.Keys <= s.known && s.saturated.Keys <= s.known
  }

  /** The accounting law for the entries in the store. */
  ghost predicate Balanced(s: State) {
    forall e :: e in s.counters ==> Balance(s, e) == 0
  }

  lemma HandBalance(s: State, x: Entry, h: Handle, e: Entry)
    requires Enabled(s, Hand(x, h)) && e in s.counters
    ensures Balance(Step(s, Hand(x, h)), e) == Balance(s, e)
  {
    PutBalance(s.(owed := s.owed - {x}), h, Some(x), e);
  }

  lemma HitBalance(s: State, x: Entry, h: Handle, e: Entry)
    requires Enabled(s, Hit(x, h)) && e in s.counters
    ensures Balance(Step(s, Hit(x, h)), e) == Balance(s, e)
  {
    PutBalance(s.(hits := s.hits[x := Count(s.hits, x) + 1]), h, Some(x), e);
  }

  lemma CopyBalance(s: State, h: Handle, f: Handle, e: Entry)
    requires Enabled(s, Copy(h, f)) && e in s.counters
    ensures var t := Step(s, Copy(h, f)); e in t.counters && Balance(t, e) == Balance(s, e)
  {
    PutBalance(s, h, s.handles[f], e);
    IncreaseBalance(Put(s, h, s.handles[f]), s.handles[f], e);
  }

  lemma MoveBalance(s: State, h: Handle, f: Handle, e: Entry)
    requires Enabled(s, Move(h, f)) && e in s.counters
    ensures Balance(Step(s, Move(h, f)), e) == Balance(s, e)
  {
    PutBalance(s, h, s.handles[f], e);
    PutBalance(Put(s, h, s.handles[f]), f, None, e);
  }

  lemma CopyAssignBalance(s: State, h: Handle, f: Handle, e: Entry)
    requires Enabled(s, CopyAssign(h, f)) && e in s.counters
    ensures var t := Step(s, CopyAssign(h, f)); e in t.counters && Balance(t, e) == Balance(s, e)
  {
    var lost := Overwrite(s, s.handles[h]);
    OverwriteBalance(s, s.handles[h], e);
    PutBalance(lost, h, s.handles[f], e);
    IncreaseBalance(Put(lost, h, s.handles[f]), s.handles[f], e);
  }

  /** A handle moved onto itself ends up null, with its count lost. */
  lemma MoveAssignBalance(s: State, h: Handle, f: Handle, e: Entry)
    requires Enabled(s, MoveAssign(h, f)) && e in s.counters
    ensures var t := Step(s, MoveAssign(h, f)); e in t.counters && Balance(t, e) == Balance(s, e)
  {
    var lost := Overwrite(s, s.handles[h]);
    OverwriteBalance(s, s.handles[h], e);
    PutBalance(lost, h, s.handles[f], e);
    PutBalance(Put(lost, h, s.handles[f]), f, None, e);
  }

  lemma DestroyBalance(s: State, h: Handle, e: Entry)
    requires Enabled(s, Destroy(h)) && e in s.counters
    ensures var t := Step(s, Destroy(h)); e in t.counters && Balance(t, e) == Balance(s, e)
  {
    DecreaseBalance(s, s.handles[h], e);
    DropBalance(Decrease(s, s.handles[h]), h, e);
  }

  lemma OtherBalance(s: State, ev: Event, e: Entry)
    requires Enabled(s, ev) && Tidy(s) && e in s.counters
    requires ev.Emplace? || ev.Default? || ev.Check? || ev.Erase?
    ensures e in Step(s, ev).counters ==> Balance(Step(s, ev), e) == Balance(s, e)
  {
    if ev.Default? {
      PutBalance(s, ev.handle, None, e);
    }
  }

  lemma StepBalance(s: State, ev: Event, e: Entry)
    requires Enabled(s, ev) && Tidy(s) && e in s.counters
    ensures e in Step(s, ev).counters ==> Balance(Step(s, ev), e) == Balance(s, e)
  {
    hide Balance, Step, Tidy;
    match ev
    case Hand(x, h) => HandBalance(s, x, h, e);
    case Hit(x, h) => HitBalance(s, x, h, e);
    case Copy(h, f) => CopyBalance(s, h, f, e);
    case Move(h, f) => MoveBalance(s, h, f, e);
    case CopyAssign(h, f) => CopyAssignBalance(s, h, f, e);
    case MoveAssign(h, f) => MoveAssignBalance(s, h, f, e);
    case Destroy(h) => DestroyBalance(s, h, e);
    case _ => OtherBalance(s, ev, e);
  }

  lemma NewEntryBalance(s: State, e: Entry)
    requires Tidy(s) && e !in s.known
    ensures Balance(Step(s, Emplace(e)), e) == 0
  {
    assert Pointing(s.handles, e) == {};
  }

  /** Entries appear only by being created. */
  lemma StepEntries(s: State, ev: Event)
    requires Enabled(s, ev)
    ensures forall e :: e in Step(s, ev).counters ==> e in s.counters || ev == Emplace(e)
  {
  }

  lemma StepKeepsBalanced(s: State, ev: Event)
    requires Enabled(s, ev) && Tidy(s) && Balanced(s)
    ensures Balanced(Step(s, ev))
  {
    StepEntries(s, ev);
    forall e | e in Step(s, ev).counters ensures Balance(Step(s, ev), e) == 0 {
      hide Step, Balance, Tidy;
      if e in s.counters {
        StepBalance(s, ev, e);
      } else {
        NewEntryBalance(s, e);
      }
    }
  }

  ghost predicate Known(s: State, t: Option<Entry>) {
    t.Some? ==> t.value in s.known
  }

  lemma PutTidy(s: State, h: Handle, t: Option<Entry>)
    requires Tidy(s) && Known(s, t)
    ensures Tidy(Put(s, h, t))
  {
  }

  lemma CountingTidy(s: State, t: Option<Entry>)
    requires Tidy(s) && Known(s, t)
    ensures Tidy(Increase(s, t)) && Tidy(Decrease(s, t)) && Tidy(Overwrite(s, t))
  {
  }

  lemma DropTidy(s: State, h: Handle)
    requires Tidy(s)
    ensures Tidy(Drop(s, h))
  {
  }

  lemma AssignTidy(s: State, h: Handle, f: Handle)
    requires Tidy(s) && h in s.handles && f in s.handles
    ensures Tidy(Step(s, CopyAssign(h, f))) && Tidy(Step(s, MoveAssign(h, f)))
  {
    var t := s.handles[f];
    CountingTidy(s, s.handles[h]);
    var lost := Overwrite(s, s.handles[h]);
    PutTidy(lost, h, t);
    CountingTidy(Put(lost, h, t), t);
    PutTidy(Put(lost, h, t), f, None);
  }

  lemma StepKeepsTidy(s: State, ev: Event)
    requires Enabled(s, ev) && Tidy(s)
    ensures Tidy(Step(s, ev))
  {
    match ev
    case Hand(x, h) => PutTidy(s.(owed := s.owed - {x}), h, Some(x));
    case Hit(x, h) => PutTidy(s.(hits := s.hits[x := Count(s.hits, x) + 1]), h, Some(x));
    case Default(h) => PutTidy(s, h, None);
    case Copy(h, f) => PutTidy(s, h, s.handles[f]); CountingTidy(Put(s, h, s.handles[f]), s.handles[f]);
    case Move(h, f) => PutTidy(s, h, s.handles[f]); PutTidy(Put(s, h, s.handles[f]), f, None);
    case CopyAssign(h, f) => AssignTidy(s, h, f);
    case MoveAssign(h, f) => AssignTidy(s, h, f);
    case Destroy(h) => CountingTidy(s, s.handles[h]); DropTidy(Decrease(s, s.handles[h]), h);
    case Emplace(_) =>
    case Check(_) =>
    case Erase(_) =>
  }

  /**
   In every run, for every entry in the store: counter plus handles made by cache hits equals live
   handles plus handles overwritten by assignment plus decreases that found the counter at zero.
   */
  lemma {:induction false} AccountingTheorem(events: seq<Event>)
    requires IsRun(events)
    ensures Tidy(After(events)) && Balanced(After(events))
    ensures var s := After(events);
            forall e :: e in s.counters ==>
              s.counters[e] + Count(s.hits, e)
              == Live(s, e) + Count(s.overwritten, e) + Count(s.saturated, e)
  {
    if events != [] {
      var n := |events| - 1;
      AccountingTheorem(events[..n]);
      hide Step, Balanced, Tidy;
      StepKeepsBalanced(After(events[..n]), events[n]);
      StepKeepsTidy(After(events[..n]), events[n]);
    }
    BalancedLaw(After(events));
  }

  lemma BalancedLaw(s: State)
    requires Balanced(s)
    ensures forall e :: e in s.counters ==>
              s.counters[e] + Count(s.hits, e)
              == Live(s, e) + Count(s.overwritten, e) + Count(s.saturated, e)
  {
    forall e | e in s.counters
      ensures s.counters[e] + Count(s.hits, e) == Live(s, e) + Count(s.overwritten, e) + Count(s.saturated, e)
    {
      assert Balance(s, e) == 0;
    }
  }

  // ---------- the law over the events of a run ----------

  /** What a step adds to the three records of an entry. */
  ghost function HitBy(ev: Event, e: Entry): nat {
    if ev.Hit? && ev.entry == e then 1 else 0
  }

  ghost function OverwrittenBy(s: State, ev: Event, e: Entry): nat {
    if (ev.CopyAssign? || ev.MoveAssign?) && ev.handle in s.handles && s.handles[ev.handle] == Some(e) then 1 else 0
  }

  ghost function SaturatedBy(s: State, ev: Event, e: Entry): nat {
    if ev.Destroy? && ev.handle in s.handles && s.handles[ev.handle] == Some(e)
       && e in s.counters && s.counters[e] == 0 then 1 else 0
  }

  /** Cache hits on an entry, assignments over a handle on it, and destructions at a zero counter. */
  ghost function Hits(events: seq<Event>, e: Entry): nat {
    if events == [] then 0 else Hits(events[..|events| - 1], e) + HitBy(events[|events| - 1], e)
  }

  ghost function Overwrites(events: seq<Event>, e: Entry): nat {
    if events == [] then 0
    else
      var n := |events| - 1;
      Overwrites(events[..n], e) + OverwrittenBy(After(events[..n]), events[n], e)
  }

  ghost function Saturations(events: seq<Event>, e: Entry): nat {
    if events == [] then 0
    else
      var n := |events| - 1;
      Saturations(events[..n], e) + SaturatedBy(After(events[..n]), events[n], e)
  }

  lemma StepHits(s: State, ev: Event, e: Entry)
    requires Enabled(s, ev)
    ensures Count(Step(s, ev).hits, e) == Count(s.hits, e) + HitBy(ev, e)
  {
  }

  lemma StepOverwrites(s: State, ev: Event, e: Entry)
    requires Enabled(s, ev)
    ensures Count(Step(s, ev).overwritten, e) == Count(s.overwritten, e) + OverwrittenBy(s, ev, e)
  {
    if ev.CopyAssign? || ev.MoveAssign? {
      OverwriteCounts(s, s.handles[ev.handle], e);
    }
    hide Overwrite, Count;
  }

  lemma OverwriteCounts(s: State, t: Option<Entry>, e: Entry)
    ensures Count(Overwrite(s, t).overwritten, e) == Count(s.overwritten, e) + Is(t, e)
  {
  }

  lemma StepSaturations(s: State, ev: Event, e: Entry)
    requires Enabled(s, ev)
    ensures Count(Step(s, ev).saturated, e) == Count(s.saturated, e) + SaturatedBy(s, ev, e)
  {
  }

  lemma {:induction false} RecordsAreEvents(events: seq<Event>, e: Entry)
    requires IsRun(events)
    ensures Count(After(events).hits, e) == Hits(events, e)
    ensures Count(After(events).overwritten, e) == Overwrites(events, e)
    ensures Count(After(events).saturated, e) == Saturations(events, e)
  {
    if events != [] {
      var n := |events| - 1;
      RecordsAreEvents(events[..n], e);
      hide Step, Enabled, HitBy, OverwrittenBy, SaturatedBy;
      StepHits(After(events[..n]), events[n], e);
      StepOverwrites(After(events[..n]), events[n], e);
      StepSaturations(After(events[..n]), events[n], e);
    }
  }

  /** The accounting law with all its terms read off the run itself. */
  lemma AccountingOverEvents(events: seq<Event>, e: Entry)
    requires IsRun(events) && e in After(events).counters
    ensures After(events).counters[e] + Hits(events, e)
         == Live(After(events), e) + Overwrites(events, e) + Saturations(events, e)
  {
    AccountingTheorem(events);
    RecordsAreEvents(events, e);
  }
}
