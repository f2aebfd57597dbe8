/**
 What the accounting law means for the collector: runs without cache hits are safe although the
 collector checks and erases in two steps, an overwritten handle keeps its entry forever, and with
 cache hits an entry can be erased under a live handle.
 */
module HandleSafety {
  import opened Wrappers
  import opened HandleRuns

  ghost predicate NoHits(events: seq<Event>) {
    forall ev :: ev in events ==> !ev.Hit?
  }

  /** Every handle, and every handle owed, refers to an entry that is still in the store. */
  ghost predicate NoDangling(s: State) {
    && (forall h :: h in s.handles && s.handles[h].Some? ==> s.handles[h].value in s.counters)
    && s.owed <= s.counters.Keys
  }

  /** What holds after every run without cache hits. */
  ghost predicate Sound(s: State) {
    && Tidy(s) && Balanced(s)
    && s.hits == map[] && s.saturated == map[]
    && NoDangling(s)
    && (s.condemned.Some? ==> s.condemned.value in s.counters && s.counters[s.condemned.value] == 0)
  }

  /** A zero counter means that nobody holds the entry. */
  lemma ZeroMeansUnused(s: State, e: Entry)
    requires Sound(s) && e in s.counters
    ensures s.counters[e] == Live(s, e) + Count(s.overwritten, e)
    ensures s.counters[e] == 0 ==> e !in s.owed && forall h :: h in s.handles ==> s.handles[h] != Some(e)
  {
    assert Balance(s, e) == 0;
    forall h | h in s.handles && s.handles[h] == Some(e) ensures s.counters[e] > 0 {
      assert h in Pointing(s.handles, e);
      assert |Pointing(s.handles, e)| > 0;
    }
  }

  lemma HeldMeansPositive(s: State, h: Handle)
    requires Sound(s) && h in s.handles && s.handles[h].Some?
    ensures s.handles[h].value in s.counters && s.counters[s.handles[h].value] > 0
  {
    ZeroMeansUnused(s, s.handles[h].value);
  }

  /** The part of soundness that the counters and handles carry. */
  ghost predicate Calm(s: State) {
    && s.hits == map[] && s.saturated == map[] && NoDangling(s)
    && (s.condemned.Some? ==> s.condemned.value in s.counters && s.counters[s.condemned.value] == 0)
  }

  lemma PutCalm(s: State, h: Handle, t: Option<Entry>)
    requires Calm(s) && (t.Some? ==> t.value in s.counters)
    ensures Calm(Put(s, h, t))
  {
  }

  lemma IncreaseCalm(s: State, t: Option<Entry>)
    requires Calm(s) && (t.Some? ==> t.value in s.counters && s.counters[t.value] > 0)
    ensures Calm(Increase(s, t)) && Increase(s, t).handles == s.handles
  {
  }

  lemma DecreaseCalm(s: State, t: Option<Entry>)
    requires Calm(s) && (t.Some? ==> t.value in s.counters && s.counters[t.value] > 0)
    ensures Calm(Decrease(s, t)) && Decrease(s, t).handles == s.handles
  {
  }

  lemma StepKeepsCalm(s: State, ev: Event)
    requires Enabled(s, ev) && Sound(s) && !ev.Hit?
    ensures Calm(Step(s, ev))
  {
    match ev
    case Emplace(e) => EmplaceCalm(s, e);
    case Hand(x, h) => PutCalm(s.(owed := s.owed - {x}), h, Some(x));
    case Default(h) => PutCalm(s, h, None);
    case Copy(h, f) =>
      if s.handles[f].Some? { HeldMeansPositive(s, f); }
      PutCalm(s, h, s.handles[f]);
      IncreaseCalm(Put(s, h, s.handles[f]), s.handles[f]);
    case Move(h, f) =>
      PutCalm(s, h, s.handles[f]);
      PutCalm(Put(s, h, s.handles[f]), f, None);
    case CopyAssign(h, f) => AssignCalm(s, h, f);
    case MoveAssign(h, f) => AssignCalm(s, h, f);
    case Destroy(h) =>
      if s.handles[h].Some? { HeldMeansPositive(s, h); }
      DecreaseCalm(s, s.handles[h]);
    case Check(e) =>
    case Erase(e) => ZeroMeansUnused(s, e);
  }

  lemma EmplaceCalm(s: State, e: Entry)
    requires Enabled(s, Emplace(e)) && Sound(s)
    ensures Calm(Step(s, Emplace(e)))
  {
    assert e !in s.counters;
  }

  lemma AssignCalm(s: State, h: Handle, f: Handle)
    requires Sound(s) && h in s.handles && f in s.handles
    ensures Calm(Step(s, CopyAssign(h, f))) && Calm(Step(s, MoveAssign(h, f)))
  {
    var t := s.handles[f];
    if t.Some? { HeldMeansPositive(s, f); }
    var lost := Overwrite(s, s.handles[h]);
    assert Calm(lost);
    PutCalm(lost, h, t);
    IncreaseCalm(Put(lost, h, t), t);
    PutCalm(Put(lost, h, t), f, None);
  }

  lemma StepKeepsSound(s: State, ev: Event)
    requires Enabled(s, ev) && Sound(s) && !ev.Hit?
    ensures Sound(Step(s, ev))
  {
    StepKeepsCalm(s, ev);
    hide Step, Tidy, Balanced;
    StepKeepsTidy(s, ev);
    StepKeepsBalanced(s, ev);
  }

  /**
   After every run without cache hits no handle dangles, no decrease has found a zero counter, and
   the entry the collector is about to erase still has a zero counter.
   */
  lemma {:induction false} SafetyTheorem(events: seq<Event>)
    requires IsRun(events) && NoHits(events)
    ensures Sound(After(events))
  {
    if events == [] {
      assert After(events) == EMPTY;
    } else {
      var n := |events| - 1;
      assert events[n] in events;
      SafetyTheorem(events[..n]);
      StepKeepsSound(After(events[..n]), events[n]);
    }
  }

  /** In runs without cache hits the collector never erases an entry that has a live handle. */
  lemma ErasesOnlyUnused(events: seq<Event>, e: Entry)
    requires IsRun(events + [Erase(e)]) && NoHits(events)
    ensures e in After(events).counters && Live(After(events), e) == 0
  {
    assert (events + [Erase(e)])[..|events|] == events;
    SafetyTheorem(events);
    ZeroMeansUnused(After(events), e);
  }

  /**
   In runs without cache hits no step touches the counter of an erased entry: copying and copy
   assignment count up the entry of their source, destruction counts down the entry of the handle, and
   the collector reads the entry it checks.
   */
  lemma NoUseAfterErase(events: seq<Event>, ev: Event)
    requires IsRun(events + [ev]) && NoHits(events)
    ensures var s := After(events);
            && (ev.Copy? || ev.CopyAssign? ==>
                  ev.from in s.handles && (s.handles[ev.from].Some? ==> s.handles[ev.from].value in s.counters))
            && (ev.Destroy? ==>
                  ev.handle in s.handles && (s.handles[ev.handle].Some? ==> s.handles[ev.handle].value in s.counters))
            && (ev.Check? ==> ev.entry in s.counters)
  {
    assert (events + [ev])[..|events|] == events;
    SafetyTheorem(events);
  }

  lemma StepKeepsZero(s: State, ev: Event, e: Entry)
    requires Enabled(s, ev) && Sound(s) && !ev.Hit?
    requires e in s.counters && s.counters[e] == 0 && e in Step(s, ev).counters
    ensures Step(s, ev).counters[e] == 0
  {
    ZeroMeansUnused(s, e);
  }

  lemma StepNeverReturns(s: State, ev: Event, e: Entry)
    requires Enabled(s, ev) && Tidy(s) && e in s.known && e in Step(s, ev).counters
    ensures e in s.counters
  {
    StepEntries(s, ev);
  }

  /** In runs without cache hits a counter that has become zero stays zero. */
  lemma {:induction false} ZeroStaysZero(events: seq<Event>, k: nat, e: Entry)
    requires IsRun(events) && NoHits(events) && k <= |events|
    requires e in After(events[..k]).counters && After(events[..k]).counters[e] == 0
    ensures e in After(events).known
    ensures e in After(events).counters ==> After(events).counters[e] == 0
    decreases |events|
  {
    if k == |events| {
      assert events[..k] == events;
      SafetyTheorem(events);
    } else {
      var n := |events| - 1;
      var s := After(events[..n]);
      assert events[..n][..k] == events[..k];
      assert events[n] in events;
      ZeroStaysZero(events[..n], k, e);
      SafetyTheorem(events[..n]);
      if e in Step(s, events[n]).counters {
        StepNeverReturns(s, events[n], e);
        StepKeepsZero(s, events[n], e);
      }
    }
  }

  /** An erased entry never comes back. */
  lemma {:induction false} ErasedStaysErased(events: seq<Event>, k: nat, e: Entry)
    requires IsRun(events) && k < |events| && events[k] == Erase(e)
    ensures e in After(events).known && e !in After(events).counters
    decreases |events|
  {
    var n := |events| - 1;
    var s := After(events[..n]);
    AccountingTheorem(events[..n]);
    if k == n {
      CondemnedIsPresent(events[..n]);
    } else {
      ErasedStaysErased(events[..n], k, e);
      if e in Step(s, events[n]).counters {
        StepNeverReturns(s, events[n], e);
      }
      StepKeepsKnown(s, events[n]);
    }
  }

  lemma StepKeepsKnown(s: State, ev: Event)
    requires Enabled(s, ev)
    ensures s.known <= Step(s, ev).known
  {
  }

  /** In every run an entry is erased at most once. */
  lemma ErasedOnce(events: seq<Event>, i: nat, j: nat)
    requires IsRun(events) && i < j < |events| && events[i].Erase? && events[j].Erase?
    ensures events[i].entry != events[j].entry
  {
    PrefixIsRun(events, j);
    PrefixStep(events, j);
    CondemnedIsPresent(events[..j]);
    ErasedStaysErased(events[..j], i, events[i].entry);
  }

  // ---------- overwritten handles ----------

  lemma StepKeepsOverwritten(s: State, ev: Event, e: Entry)
    requires Enabled(s, ev) && Sound(s) && !ev.Hit? && e in s.counters && Count(s.overwritten, e) > 0
    ensures e in Step(s, ev).counters && Count(Step(s, ev).overwritten, e) > 0
  {
    ZeroMeansUnused(s, e);
  }

  /** In runs without cache hits, once a live handle to an entry was overwritten the entry is never erased. */
  lemma {:induction false} OverwrittenNeverErased(events: seq<Event>, k: nat, e: Entry)
    requires IsRun(events) && NoHits(events) && k <= |events|
    requires e in After(events[..k]).counters && Count(After(events[..k]).overwritten, e) > 0
    ensures e in After(events).counters && After(events).counters[e] > 0
    ensures Count(After(events).overwritten, e) > 0
    decreases |events|
  {
    SafetyTheorem(events);
    if k == |events| {
      assert events[..k] == events;
    } else {
      var n := |events| - 1;
      assert events[..n][..k] == events[..k];
      assert events[n] in events;
      OverwrittenNeverErased(events[..n], k, e);
      SafetyTheorem(events[..n]);
      StepKeepsOverwritten(After(events[..n]), events[n], e);
    }
    ZeroMeansUnused(After(events), e);
  }

  /** Without hits and overwriting, an entry's counter is the number of its live handles. */
  lemma CounterIsExact(events: seq<Event>, e: Entry)
    requires IsRun(events) && NoHits(events) && e in After(events).counters
    ensures After(events).counters[e] == Live(After(events), e) <==> Count(After(events).overwritten, e) == 0
  {
    SafetyTheorem(events);
    ZeroMeansUnused(After(events), e);
  }

  // ---------- runs with cache hits ----------

  /** In any run, an erased entry had a live handle exactly when the uncounted handles outweigh the rest. */
  lemma ErasedUnderHandle(events: seq<Event>, e: Entry)
    requires IsRun(events + [Erase(e)])
    ensures var s := After(events);
            e in s.counters
            && (Live(s, e) > 0
                <==> s.counters[e] + Hits(events, e) > Overwrites(events, e) + Saturations(events, e))
  {
    assert (events + [Erase(e)])[..|events|] == events;
    CondemnedIsPresent(events);
    AccountingOverEvents(events, e);
  }

  /** Only the collector removes entries, so what it has condemned is still there. */
  lemma {:induction false} CondemnedIsPresent(events: seq<Event>)
    requires IsRun(events)
    ensures After(events).condemned.Some? ==> After(events).condemned.value in After(events).counters
  {
    if events != [] {
      var n := |events| - 1;
      CondemnedIsPresent(events[..n]);
      StepKeepsCondemned(After(events[..n]), events[n]);
    }
  }

  lemma StepKeepsCondemned(s: State, ev: Event)
    requires Enabled(s, ev) && (s.condemned.Some? ==> s.condemned.value in s.counters)
    ensures var t := Step(s, ev); t.condemned.Some? ==> t.condemned.value in t.counters
  {
    hide Increase, Decrease, Overwrite;
    match ev
    case Copy(h, f) => CountingKeepsKeys(Put(s, h, s.handles[f]), s.handles[f]);
    case CopyAssign(h, f) =>
      CountingKeepsKeys(s, s.handles[h]);
      CountingKeepsKeys(Put(Overwrite(s, s.handles[h]), h, s.handles[f]), s.handles[f]);
    case MoveAssign(h, f) => CountingKeepsKeys(s, s.handles[h]);
    case Destroy(h) => CountingKeepsKeys(s, s.handles[h]);
    case _ =>
  }

  lemma PutKeepsNoDangling(s: State, h: Handle, t: Option<Entry>)
    requires NoDangling(s) && (t.Some? ==> t.value in s.counters)
    ensures NoDangling(Put(s, h, t))
  {
  }

  lemma CountingKeepsNoDangling(s: State, t: Option<Entry>)
    requires NoDangling(s)
    ensures NoDangling(Increase(s, t)) && NoDangling(Decrease(s, t)) && NoDangling(Overwrite(s, t))
  {
    CountingKeepsKeys(s, t);
    hide Increase, Decrease, Overwrite;
  }

  lemma AssignKeepsNoDangling(s: State, h: Handle, f: Handle)
    requires NoDangling(s) && h in s.handles && f in s.handles
    ensures NoDangling(Step(s, CopyAssign(h, f))) && NoDangling(Step(s, MoveAssign(h, f)))
  {
    var t, lost := s.handles[f], Overwrite(s, s.handles[h]);
    CountingKeepsKeys(s, s.handles[h]);
    CountingKeepsNoDangling(s, s.handles[h]);
    assert t.Some? ==> t.value in s.counters;
    hide NoDangling, Increase, Decrease, Overwrite, Put;
    PutKeepsNoDangling(lost, h, t);
    CountingKeepsNoDangling(Put(lost, h, t), t);
    PutKeepsNoDangling(Put(lost, h, t), f, None);
  }

  lemma StepKeepsNoDangling(s: State, ev: Event)
    requires Enabled(s, ev) && NoDangling(s)
    requires ev.Erase? ==> Live(s, ev.entry) == 0
    ensures NoDangling(Step(s, ev))
  {
    match ev
    case Hand(x, h) => PutKeepsNoDangling(s.(owed := s.owed - {x}), h, Some(x));
    case Hit(x, h) => PutKeepsNoDangling(s.(hits := s.hits[x := Count(s.hits, x) + 1]), h, Some(x));
    case Default(h) => PutKeepsNoDangling(s, h, None);
    case Copy(h, f) =>
      PutKeepsNoDangling(s, h, s.handles[f]);
      CountingKeepsNoDangling(Put(s, h, s.handles[f]), s.handles[f]);
    case Move(h, f) =>
      PutKeepsNoDangling(s, h, s.handles[f]);
      PutKeepsNoDangling(Put(s, h, s.handles[f]), f, None);
    case CopyAssign(h, f) => AssignKeepsNoDangling(s, h, f);
    case MoveAssign(h, f) => AssignKeepsNoDangling(s, h, f);
    case Destroy(h) => CountingKeepsNoDangling(s, s.handles[h]);
    case Erase(e) => UnusedIffNotLive(s, e);
    case Emplace(_) =>
    case Check(_) =>
  }

  lemma UnusedIffNotLive(s: State, e: Entry)
    ensures Live(s, e) == 0 <==> e !in s.owed && forall h :: h in s.handles ==> s.handles[h] != Some(e)
  {
    if Live(s, e) == 0 {
      forall h | h in s.handles ensures s.handles[h] != Some(e) {
        assert h !in Pointing(s.handles, e);
      }
    } else if e !in s.owed {
      var h :| h in Pointing(s.handles, e);
      assert s.handles[h] == Some(e);
    }
  }

  lemma EraseUnderHandleDangles(s: State, e: Entry)
    requires Enabled(s, Erase(e)) && Live(s, e) > 0
    ensures !NoDangling(Step(s, Erase(e)))
  {
    UnusedIffNotLive(s, e);
  }

  /** At an erasure: counter and uncounted handles are used up by overwriting and saturation. */
  ghost predicate SafeErase(events: seq<Event>, e: Entry) {
    var s := After(events);
    e in s.counters && s.counters[e] + Hits(events, e) == Overwrites(events, e) + Saturations(events, e)
  }

  lemma SafeEraseIff(events: seq<Event>, e: Entry)
    requires IsRun(events) && Enabled(After(events), Erase(e))
    ensures SafeErase(events, e) <==> Live(After(events), e) == 0
  {
    hide IsRun, After, Live;
    CondemnedIsPresent(events);
    AccountingOverEvents(events, e);
  }

  lemma NextDanglesIff(events: seq<Event>, ev: Event)
    requires IsRun(events) && Enabled(After(events), ev) && NoDangling(After(events))
    ensures NoDangling(Step(After(events), ev)) <==> (ev.Erase? ==> SafeErase(events, ev.entry))
  {
    hide *;
    var s := After(events);
    if !ev.Erase? {
      StepKeepsNoDangling(s, ev);
    } else {
      SafeEraseIff(events, ev.entry);
      if Live(s, ev.entry) == 0 {
        StepKeepsNoDangling(s, ev);
      } else {
        EraseUnderHandleDangles(s, ev.entry);
      }
    }
  }

  lemma {:induction false} PrefixIsRun(events: seq<Event>, n: nat)
    requires IsRun(events) && n <= |events|
    ensures IsRun(events[..n])
    decreases |events|
  {
    if n == |events| {
      assert events[..n] == events;
    } else {
      var m := |events| - 1;
      PrefixIsRun(events[..m], n);
      assert events[..m][..n] == events[..n];
    }
  }

  lemma PrefixStep(events: seq<Event>, n: nat)
    requires IsRun(events) && n < |events|
    ensures Enabled(After(events[..n]), events[n])
    ensures After(events[..n + 1]) == Step(After(events[..n]), events[n])
  {
    hide Enabled, Step;
    PrefixIsRun(events, n + 1);
    assert events[..n + 1][..n] == events[..n];
  }

  ghost predicate SafeAt(events: seq<Event>, k: nat)
    requires k <= |events|
  {
    NoDangling(After(events[..k]))
  }

  ghost predicate ErasesSafelyAt(events: seq<Event>, k: nat)
    requires k < |events|
  {
    events[k].Erase? ==> SafeErase(events[..k], events[k].entry)
  }

  lemma StartIsSafe(events: seq<Event>)
    ensures SafeAt(events, 0)
  {
    assert events[..0] == [];
    assert After([]) == EMPTY;
  }

  lemma StaysSafeIff(events: seq<Event>, k: nat)
    requires IsRun(events) && k < |events| && SafeAt(events, k)
    ensures SafeAt(events, k + 1) <==> ErasesSafelyAt(events, k)
  {
    hide IsRun, After, Step, Enabled, NoDangling, SafeErase;
    PrefixIsRun(events, k);
    PrefixStep(events, k);
    NextDanglesIff(events[..k], events[k]);
  }

  lemma {:induction false} NeverDanglesUpTo(events: seq<Event>, n: nat)
    requires IsRun(events) && n <= |events|
    ensures (forall k: nat :: k <= n ==> SafeAt(events, k)) <==> forall k: nat :: k < n ==> ErasesSafelyAt(events, k)
  {
    hide *;
    if n == 0 {
      StartIsSafe(events);
    } else {
      NeverDanglesUpTo(events, n - 1);
      if SafeAt(events, n - 1) {
        StaysSafeIff(events, n - 1);
      }
    }
  }

  /**
   In every run, cache hits included: no handle ever dangles if and only if at every erasure the
   counter and the cache hits so far are used up by overwritten handles and saturated decreases.
   */
  lemma NeverDanglesIff(events: seq<Event>)
    requires IsRun(events)
    ensures (forall k: nat :: k <= |events| ==> NoDangling(After(events[..k])))
            <==> forall k: nat :: k < |events| && events[k].Erase? ==> SafeErase(events[..k], events[k].entry)
  {
    hide IsRun, After, NoDangling, SafeErase;
    NeverDanglesUpTo(events, |events|);
    if forall k: nat :: k <= |events| ==> SafeAt(events, k) {
      forall k: nat | k <= |events| ensures NoDangling(After(events[..k])) {
        assert SafeAt(events, k);
      }
      forall k: nat | k < |events| && events[k].Erase? ensures SafeErase(events[..k], events[k].entry) {
        assert ErasesSafelyAt(events, k);
      }
    }
  }

  /** An entry is created, looked up once more, given up by its creator, and collected. */
  ghost function HitRun(e: Entry, g: Handle, h: Handle): seq<Event> {
    [Emplace(e), Hand(e, g), Hit(e, h), Destroy(g), Check(e), Erase(e)]
  }

  /** One cache hit is enough to leave a handle on an erased entry. */
  lemma HitLeavesDanglingHandle(e: Entry, g: Handle, h: Handle)
    requires g != h
    ensures var events := HitRun(e, g, h);
            && IsRun(events) && h in After(events).handles && After(events).handles[h] == Some(e)
            && e !in After(events).counters && !NoDangling(After(events))
  {
    var r1 := [Emplace(e)];
    var r2 := r1 + [Hand(e, g)];
    var r3 := r2 + [Hit(e, h)];
    var r4 := r3 + [Destroy(g)];
    var r5 := r4 + [Check(e)];
    var r6 := r5 + [Erase(e)];
    RunExtends([], Emplace(e));
    assert [] + [Emplace(e)] == r1;
    RunExtends(r1, Hand(e, g));
    RunExtends(r2, Hit(e, h));
    RunExtends(r3, Destroy(g));
    RunExtends(r4, Check(e));
    assert After(r4).counters[e] == 0;
    RunExtends(r5, Erase(e));
    assert r6 == HitRun(e, g, h);
    assert After(r6).handles[h] == Some(e) && e !in After(r6).counters;
  }

  lemma RunExtends(events: seq<Event>, ev: Event)
    requires IsRun(events) && Enabled(After(events), ev)
    ensures IsRun(events + [ev]) && After(events + [ev]) == Step(After(events), ev)
  {
    assert (events + [ev])[..|events|] == events;
  }
}
