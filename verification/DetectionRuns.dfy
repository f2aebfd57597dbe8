/**
 Whole runs of the detection loop for one member whose set of attributes stays the same.
 */
module DetectionRuns {
  import opened Wrappers
  import opened Sequences
  import opened Statistics
  import opened CircularBuffers
  import opened FaultDetection

  /** Every mapping read during the run has the same, non-empty list of names. */
  ghost predicate Steady(names: seq<Descriptor>, ticks: seq<Tick>) {
    && |names| > 0 && Distinct(names)
    && forall t :: t in ticks && t.attributes.Some? ==> Names(t.attributes.value) == names
  }

  /** All mappings read, oldest first. */
  function Reads(ticks: seq<Tick>): seq<seq<Attribute>> {
    if ticks == [] then []
    else Reads(ticks[..|ticks| - 1]) + Read(ticks[|ticks| - 1])
  }

  function Read(tick: Tick): seq<seq<Attribute>> {
    if tick.attributes.Some? then [tick.attributes.value] else []
  }

  /** The mappings in the window when the last iteration begins to read. */
  function Carried(size: nat, ticks: seq<Tick>): seq<seq<Attribute>>
    requires ticks != []
    decreases |ticks|, 0
  {
    if ticks[|ticks| - 1].reset then [] else Kept(size, ticks[..|ticks| - 1])
  }

  /** The mappings read since the window was last given up or cleared, before and after the last verdict. */
  function Pending(size: nat, ticks: seq<Tick>): seq<seq<Attribute>>
    requires ticks != []
    decreases |ticks|, 1
  {
    Carried(size, ticks) + Read(ticks[|ticks| - 1])
  }

  function Kept(size: nat, ticks: seq<Tick>): seq<seq<Attribute>>
    decreases |ticks|, 2
  {
    if ticks == [] then []
    else if |Pending(size, ticks)| == size && ticks[|ticks| - 1].used then []
    else Pending(size, ticks)
  }

  ghost predicate RowsNamed(names: seq<Descriptor>, rows: seq<seq<Attribute>>) {
    forall k :: 0 <= k < |rows| ==> Names(rows[k]) == names
  }

  /** The values of one attribute in the mappings read. */
  function Column(names: seq<Descriptor>, rows: seq<seq<Attribute>>, i: nat): (c: seq<real>)
    requires RowsNamed(names, rows) && i < |names|
    ensures |c| == |rows|
    ensures forall k :: 0 <= k < |rows| ==> |rows[k]| == |names| && c[k] == rows[k][i].value
  {
    assert forall k :: 0 <= k < |rows| ==> |Names(rows[k])| == |rows[k]|;
    seq(|rows|, k requires 0 <= k < |rows| => rows[k][i].value)
  }

  lemma {:induction false} ReadsNamed(size: nat, names: seq<Descriptor>, ticks: seq<Tick>)
    requires Steady(names, ticks)
    ensures RowsNamed(names, Reads(ticks)) && RowsNamed(names, Kept(size, ticks))
    ensures ticks != [] ==> RowsNamed(names, Pending(size, ticks))
  {
    if ticks != [] {
      var n := |ticks| - 1;
      ReadsNamed(size, names, ticks[..n]);
      assert ticks[n] in ticks;
      assert Carried(size, ticks) == if ticks[n].reset then [] else Kept(size, ticks[..n]);
    }
  }

  /** What is kept is the latest part of what was read. */
  lemma {:induction false} KeptIsRecent(size: nat, ticks: seq<Tick>)
    ensures exists a :: Reads(ticks) == a + Kept(size, ticks)
    ensures ticks != [] ==> exists a :: Reads(ticks) == a + Pending(size, ticks)
  {
    if ticks == [] {
      assert Reads(ticks) == [] + Kept(size, ticks);
    } else {
      var n := |ticks| - 1;
      KeptIsRecent(size, ticks[..n]);
      var a :| Reads(ticks[..n]) == a + Kept(size, ticks[..n]);
      var b := if ticks[n].reset then Reads(ticks[..n]) else a;
      assert Reads(ticks) == b + Pending(size, ticks);
      if Kept(size, ticks) == [] {
        assert Reads(ticks) == Reads(ticks) + Kept(size, ticks);
      }
    }
  }

  /** The window holds exactly these mappings, each attribute in its own buffer, newest in front. */
  ghost predicate Mirrors(names: seq<Descriptor>, window: Option<Window>, rows: seq<seq<Attribute>>)
    requires RowsNamed(names, rows)
  {
    && (window.None? <==> rows == [])
    && (window.Some? ==>
          && window.value.names == names && |window.value.samples| == |names|
          && forall i :: 0 <= i < |names| ==> window.value.samples[i] == Reversed(Column(names, rows, i)))
  }

  lemma {:induction false} ValueByName(attributes: seq<Attribute>, names: seq<Descriptor>, i: nat)
    requires Distinct(names) && Names(attributes) == names && i < |names|
    ensures ValuesFor(attributes, names[i]) == [attributes[i].value]
  {
    var n := |attributes| - 1;
    assert Names(attributes[..n]) == names[..n];
    if i == n {
      NoValue(attributes[..n], names[i]);
    } else {
      ValueByName(attributes[..n], names[..n], i);
      assert Names(attributes)[n] == attributes[n].name;
    }
  }

  lemma {:induction false} NoValue(attributes: seq<Attribute>, name: Descriptor)
    requires name !in Names(attributes)
    ensures ValuesFor(attributes, name) == []
  {
    if attributes != [] {
      var n := |attributes| - 1;
      assert Names(attributes)[n] in Names(attributes);
      forall x | x in Names(attributes[..n]) ensures x in Names(attributes) {
        var k :| 0 <= k < n && Names(attributes[..n])[k] == x;
        assert Names(attributes)[k] == x;
      }
      NoValue(attributes[..n], name);
    }
  }

  lemma ColumnAppend(names: seq<Descriptor>, rows: seq<seq<Attribute>>, row: seq<Attribute>, i: nat)
    requires RowsNamed(names, rows + [row]) && i < |names|
    ensures RowsNamed(names, rows) && |row| == |names|
    ensures Reversed(Column(names, rows + [row], i)) == [row[i].value] + Reversed(Column(names, rows, i))
  {
    assert (rows + [row])[|rows|] == row && |Names(row)| == |row|;
    assert forall k :: 0 <= k < |rows| ==> (rows + [row])[k] == rows[k];
    assert Column(names, rows + [row], i)[..|rows|] == Column(names, rows, i);
  }

  lemma FilledMirrors(names: seq<Descriptor>, window: Option<Window>, rows: seq<seq<Attribute>>, tick: Tick)
    requires |names| > 0 && Distinct(names) && RowsNamed(names, rows + Read(tick)) && RowsNamed(names, rows)
    requires Mirrors(names, window, rows)
    ensures Mirrors(names, Filled(window, tick.attributes), rows + Read(tick))
  {
    if tick.attributes.None? {
      assert rows + Read(tick) == rows;
    } else {
      var row := tick.attributes.value;
      assert (rows + [row])[|rows|] == row;
      var w := Filled(window, tick.attributes).value;
      forall i | 0 <= i < |names|
        ensures w.samples[i] == Reversed(Column(names, rows + [row], i))
      {
        ColumnAppend(names, rows, row, i);
        if window.None? {
          assert Column(names, rows, i) == [];
        } else {
          ValueByName(row, names, i);
        }
      }
    }
  }

  /** In every steady run the window mirrors the mappings kept. */
  lemma {:induction false} WindowTheorem(size: nat, names: seq<Descriptor>, ticks: seq<Tick>)
    requires size > 0 && Steady(names, ticks)
    ensures RowsNamed(names, Kept(size, ticks)) && Mirrors(names, Run(size, ticks).window, Kept(size, ticks))
    decreases |ticks|, 1
  {
    ReadsNamed(size, names, ticks);
    if ticks != [] {
      LastStep(size, names, ticks);
    }
  }

  lemma {:induction false} LastStep(size: nat, names: seq<Descriptor>, ticks: seq<Tick>)
    requires size > 0 && ticks != [] && Steady(names, ticks)
    ensures RowsNamed(names, Pending(size, ticks)) && RowsNamed(names, Kept(size, ticks))
    ensures var n := |ticks| - 1;
            var filled := Filled(AtStart(Run(size, ticks[..n]).window, ticks[n]), ticks[n].attributes);
            && Mirrors(names, filled, Pending(size, ticks))
            && (filled.Some? && FirstFull(size, filled.value) <==> |Pending(size, ticks)| == size)
            && Mirrors(names, Run(size, ticks).window, Kept(size, ticks))
    decreases |ticks|, 0
  {
    var n := |ticks| - 1;
    ReadsNamed(size, names, ticks);
    WindowTheorem(size, names, ticks[..n]);
    FilledMirrors(names, AtStart(Run(size, ticks[..n]).window, ticks[n]), Carried(size, ticks), ticks[n]);
  }

  /** All buffers of the window have the same size, so the first may speak for all. */
  lemma ParallelGrowth(size: nat, names: seq<Descriptor>, ticks: seq<Tick>)
    requires size > 0 && Steady(names, ticks) && Run(size, ticks).window.Some?
    ensures var w := Run(size, ticks).window.value;
            && |w.samples| == |names|
            && forall i :: 0 <= i < |w.samples| ==> |w.samples[i]| == |w.samples[0]| == |Kept(size, ticks)| > 0
  {
    WindowTheorem(size, names, ticks);
  }

  lemma SuffixWindow(names: seq<Descriptor>, a: seq<seq<Attribute>>, rows: seq<seq<Attribute>>, i: nat)
    requires RowsNamed(names, a + rows) && i < |names|
    ensures RowsNamed(names, rows)
    ensures Column(names, rows, i) == SlidingWindow(Column(names, a + rows, i), |rows|)
  {
    assert forall k :: 0 <= k < |rows| ==> (a + rows)[|a| + k] == rows[k];
    assert Column(names, a + rows, i)[|a|..] == Column(names, rows, i);
    if a == [] {
      assert a + rows == rows;
    }
  }

  /** The sliding-window rule on the last `size` values read of an attribute. */
  ghost predicate SlidingOutlier(names: seq<Descriptor>, rows: seq<seq<Attribute>>, size: nat, i: nat)
    requires RowsNamed(names, rows) && i < |names| && 0 < size <= |rows|
  {
    var c := Column(names, rows, i);
    Outlier(SlidingWindow(c, size), c[|rows| - 1])
  }

  lemma MarkedIsSlidingOutlier(names: seq<Descriptor>, a: seq<seq<Attribute>>, rows: seq<seq<Attribute>>, i: nat)
    requires RowsNamed(names, a + rows) && RowsNamed(names, rows) && i < |names| && |rows| > 0
    ensures Marked(Reversed(Column(names, rows, i))) <==> SlidingOutlier(names, a + rows, |rows|, i)
  {
    SuffixWindow(names, a, rows, i);
    var c := Column(names, rows, i);
    BufferIsSlidingWindow(c, |rows|);
    assert (a + rows)[|a + rows| - 1] == rows[|rows| - 1];
  }

  /** The verdict on a window that holds the last `size` mappings is that of a sliding window. */
  lemma JudgedIsSliding(
    size: nat, names: seq<Descriptor>, a: seq<seq<Attribute>>, rows: seq<seq<Attribute>>, w: Window, dead: bool)
    requires RowsNamed(names, a + rows) && RowsNamed(names, rows) && |rows| == size > 0
    requires |w.names| == |w.samples| && Mirrors(names, Some(w), rows)
    ensures var v := Judged(w, dead);
            && (dead ==> v == Asked(true, []))
            && (!dead ==>
                  && v.fault == (v.affected != [])
                  && forall d :: d in v.affected <==>
                       exists i :: 0 <= i < |names| && names[i] == d && SlidingOutlier(names, a + rows, size, i))
  {
    hide Marked, SlidingOutlier, Column, RowsNamed;
    forall i | 0 <= i < |names| ensures Marked(w.samples[i]) <==> SlidingOutlier(names, a + rows, size, i) {
      MarkedIsSlidingOutlier(names, a, rows, i);
    }
  }

  /**
   A verdict is asked for exactly when `size` mappings were kept, and then it is the verdict of a
   sliding window over the last `size` mappings read: a node that is not alive is at fault, and
   otherwise exactly the attributes outside their three-sigma band are affected.
   */
  lemma VerdictTheorem(size: nat, names: seq<Descriptor>, ticks: seq<Tick>)
    requires size > 0 && ticks != [] && Steady(names, ticks)
    ensures Run(size, ticks).verdict.Asked? <==> |Pending(size, ticks)| == size
    ensures RowsNamed(names, Reads(ticks)) && |Reads(ticks)| >= |Pending(size, ticks)|
    ensures var v := Run(size, ticks).verdict;
            v.Asked? && ticks[|ticks| - 1].dead ==> v == Asked(true, [])
    ensures var v := Run(size, ticks).verdict;
            v.Asked? && !ticks[|ticks| - 1].dead ==>
              && v.fault == (v.affected != [])
              && forall d :: d in v.affected <==>
                   exists i :: 0 <= i < |names| && names[i] == d && SlidingOutlier(names, Reads(ticks), size, i)
  {
    var n := |ticks| - 1;
    var filled := Filled(AtStart(Run(size, ticks[..n]).window, ticks[n]), ticks[n].attributes);
    assert filled.Some? && FirstFull(size, filled.value) ==> Run(size, ticks).verdict == Judged(filled.value, ticks[n].dead);
    assert !(filled.Some? && FirstFull(size, filled.value)) ==> Run(size, ticks).verdict == NotAsked;
    hide *;
    LastStep(size, names, ticks);
    ReadsNamed(size, names, ticks);
    KeptIsRecent(size, ticks);
    var rows := Pending(size, ticks);
    var a :| Reads(ticks) == a + rows;
    if |rows| == size {
      JudgedIsSliding(size, names, a, rows, filled.value, ticks[n].dead);
    }
  }

  /** The names in a verdict on a living node: the attributes outside their band, each once, in their order. */
  lemma VerdictNames(size: nat, names: seq<Descriptor>, ticks: seq<Tick>) returns (p: seq<nat>)
    requires size > 0 && ticks != [] && Steady(names, ticks)
    requires Run(size, ticks).verdict.Asked? && !ticks[|ticks| - 1].dead
    ensures RowsNamed(names, Reads(ticks)) && |Reads(ticks)| >= size
    ensures Ascending(p) && forall x: nat :: x in p <==> x < |names| && SlidingOutlier(names, Reads(ticks), size, x)
    ensures var v := Run(size, ticks).verdict;
            && v.fault == (v.affected != []) && |v.affected| == |p|
            && forall i :: 0 <= i < |p| ==> p[i] < |names| && v.affected[i] == names[p[i]]
  {
    var n := |ticks| - 1;
    var filled := Filled(AtStart(Run(size, ticks[..n]).window, ticks[n]), ticks[n].attributes);
    assert filled.Some? && FirstFull(size, filled.value) && Run(size, ticks).verdict == Judged(filled.value, false);
    hide Run, Filled, AtStart, Steady, Reads, RowsNamed, SlidingOutlier, Affected, Ascending;
    LastStep(size, names, ticks);
    ReadsNamed(size, names, ticks);
    KeptIsRecent(size, ticks);
    var rows := Pending(size, ticks);
    var a :| Reads(ticks) == a + rows;
    p := AffectedPositions(filled.value);
    forall i | 0 <= i < |names| ensures Marked(filled.value.samples[i]) <==> SlidingOutlier(names, a + rows, size, i) {
      MarkedIsSlidingOutlier(names, a, rows, i);
    }
  }

  /**
   With a window of at most ten samples the three-sigma rule never marks anything: in every run the
   only verdict of fault is on a node that is not alive. The shipped configuration has size ten.
   */
  lemma SmallWindowsOnlyReportDeath(size: nat, names: seq<Descriptor>, ticks: seq<Tick>)
    requires 0 < size <= 10 && ticks != [] && Steady(names, ticks)
    ensures var v := Run(size, ticks).verdict;
            v.Asked? ==> v == Asked(ticks[|ticks| - 1].dead, [])
  {
    var n := |ticks| - 1;
    LastStep(size, names, ticks);
    var filled := Filled(AtStart(Run(size, ticks[..n]).window, ticks[n]), ticks[n].attributes);
    if |Pending(size, ticks)| == size {
      var w := filled.value;
      forall i | 0 <= i < |w.samples| ensures !Marked(w.samples[i]) {
        SmallWindowsNeverFire(w.samples[i], 0);
      }
      NothingAffected(w);
    }
  }

  lemma {:induction false} NothingAffected(w: Window)
    requires |w.names| == |w.samples| && forall i :: 0 <= i < |w.samples| ==> !Marked(w.samples[i])
    ensures Affected(w) == []
    decreases |w.names|
  {
    if w.names != [] {
      var n := |w.names| - 1;
      NothingAffected(Window(w.names[..n], w.samples[..n]));
    }
  }

  // ---------- when verdicts are asked for ----------

  ghost predicate AlwaysWatched(ticks: seq<Tick>) {
    forall t :: t in ticks ==> t.attributes.Some?
  }

  /** Iterations since the windows were last cleared. */
  function SinceReset(ticks: seq<Tick>): (n: nat)
    ensures n <= |ticks| && (n == 0 <==> ticks == [])
    ensures (forall t :: t in ticks ==> !t.reset) ==> n == |ticks|
  {
    if ticks == [] then 0
    else
      assert ticks[|ticks| - 1] in ticks;
      if ticks[|ticks| - 1].reset then 1 else SinceReset(ticks[..|ticks| - 1]) + 1
  }

  function Resets(ticks: seq<Tick>): nat {
    if ticks == [] then 0 else Resets(ticks[..|ticks| - 1]) + if ticks[|ticks| - 1].reset then 1 else 0
  }

  lemma KeptLengths(size: nat, ticks: seq<Tick>)
    requires ticks != []
    ensures var n := |ticks| - 1;
            && |Pending(size, ticks)|
               == (if ticks[n].reset then 0 else |Kept(size, ticks[..n])|) + (if ticks[n].attributes.Some? then 1 else 0)
            && |Kept(size, ticks)|
               == if |Pending(size, ticks)| == size && ticks[n].used then 0 else |Pending(size, ticks)|
  {
    assert Carried(size, ticks) == if ticks[|ticks| - 1].reset then [] else Kept(size, ticks[..|ticks| - 1]);
  }

  lemma {:induction false} KeptWhenNeverGivenUp(size: nat, ticks: seq<Tick>)
    requires AlwaysWatched(ticks) && forall t :: t in ticks ==> !t.used
    ensures |Kept(size, ticks)| == SinceReset(ticks)
    ensures ticks != [] ==> |Pending(size, ticks)| == SinceReset(ticks)
  {
    if ticks != [] {
      var n := |ticks| - 1;
      KeptWhenNeverGivenUp(size, ticks[..n]);
      assert ticks[n] in ticks;
      KeptLengths(size, ticks);
    }
  }

  /**
   A member that stays on the watchlist is judged once between two clearings of the windows, in the
   iteration numbered `size`.
   */
  lemma JudgedOnce(size: nat, names: seq<Descriptor>, ticks: seq<Tick>)
    requires size > 0 && ticks != [] && Steady(names, ticks) && AlwaysWatched(ticks)
    requires forall t :: t in ticks ==> !t.used
    ensures Run(size, ticks).verdict.Asked? <==> SinceReset(ticks) == size
  {
    VerdictTheorem(size, names, ticks);
    KeptWhenNeverGivenUp(size, ticks);
  }

  /** Position within a round of the given length. */
  function Phase(m: nat, size: nat): (p: nat)
    requires size > 0
    ensures p < size
  {
    m % size
  }

  lemma NextPhase(m: nat, size: nat)
    requires size > 0
    ensures Phase(0, size) == 0
    ensures Phase(m + 1, size) == if Phase(m, size) + 1 == size then 0 else Phase(m, size) + 1
  {
    NextRemainder(m, size);
  }

  lemma {:induction false} KeptWhenGivenUp(size: nat, ticks: seq<Tick>)
    requires size > 0 && AlwaysWatched(ticks) && forall t :: t in ticks ==> t.used
    ensures |Kept(size, ticks)| == Phase(SinceReset(ticks), size)
    ensures ticks != [] ==> (|Pending(size, ticks)| == size <==> Phase(SinceReset(ticks), size) == 0)
  {
    hide Phase;
    NextPhase(0, size);
    if ticks != [] {
      var n := |ticks| - 1;
      KeptWhenGivenUp(size, ticks[..n]);
      assert ticks[n] in ticks;
      hide Kept, Pending;
      KeptLengths(size, ticks);
      NextPhase(if ticks[n].reset then 0 else SinceReset(ticks[..n]), size);
    }
  }

  lemma NextRemainder(n: nat, size: nat)
    requires size > 0
    ensures (n + 1) % size == if n % size + 1 == size then 0 else n % size + 1
  {
    var q, r := n / size, n % size;
    assert n + 1 == q * size + (r + 1);
    if r + 1 == size {
      assert n + 1 == 0 + (q + 1) * size;
      SameRemainder(n + 1, 0, q + 1, size);
    } else {
      SameRemainder(n + 1, r + 1, q, size);
    }
  }

  /**
   A member given up after each verdict and watched again is judged in every `size`-th iteration,
   counted from the last clearing of the windows.
   */
  lemma JudgedPeriodically(size: nat, names: seq<Descriptor>, ticks: seq<Tick>)
    requires size > 0 && ticks != [] && Steady(names, ticks) && AlwaysWatched(ticks)
    requires forall t :: t in ticks ==> t.used
    ensures Run(size, ticks).verdict.Asked? <==> SinceReset(ticks) % size == 0
  {
    VerdictTheorem(size, names, ticks);
    KeptWhenGivenUp(size, ticks);
  }

  // ---------- the alerts of a whole run ----------

  function AlertOf(v: Verdict): seq<Alert> {
    if v.Asked? && v.fault then [Alert(v.affected)] else []
  }

  function AlertsOf(size: nat, ticks: seq<Tick>): seq<Alert> {
    if ticks == [] then []
    else AlertsOf(size, ticks[..|ticks| - 1]) + AlertOf(Run(size, ticks).verdict)
  }

  /** The verdict of the iteration at a position. */
  ghost function VerdictAt(size: nat, ticks: seq<Tick>, x: nat): Verdict
    requires x < |ticks|
  {
    Run(size, ticks[..x + 1]).verdict
  }

  ghost predicate FaultAt(size: nat, ticks: seq<Tick>, x: nat) {
    x < |ticks| && VerdictAt(size, ticks, x).Asked? && VerdictAt(size, ticks, x).fault
  }

  ghost predicate RaisedAt(size: nat, ticks: seq<Tick>, p: seq<nat>, alerts: seq<Alert>) {
    && |alerts| == |p|
    && forall i :: 0 <= i < |p| ==>
         p[i] < |ticks| && FaultAt(size, ticks, p[i]) && alerts[i] == Alert(VerdictAt(size, ticks, p[i]).affected)
  }

  lemma RaisedAtOneMore(size: nat, ticks: seq<Tick>, n: nat, p: seq<nat>, alerts: seq<Alert>)
    requires n < |ticks| && FaultAt(size, ticks, n) && RaisedAt(size, ticks, p, alerts)
    ensures RaisedAt(size, ticks, p + [n], alerts + [Alert(VerdictAt(size, ticks, n).affected)])
  {
    hide VerdictAt;
  }

  lemma AlertsOneMore(size: nat, ticks: seq<Tick>, n: nat)
    requires n < |ticks|
    ensures AlertsOf(size, ticks[..n + 1])
         == AlertsOf(size, ticks[..n])
            + if FaultAt(size, ticks, n) then [Alert(VerdictAt(size, ticks, n).affected)] else []
  {
    hide Run;
    assert ticks[..n + 1][..n] == ticks[..n];
  }

  lemma NothingRaised(size: nat, ticks: seq<Tick>)
    ensures Ascending([]) && RaisedAt(size, ticks, [], AlertsOf(size, ticks[..0]))
  {
  }

  lemma {:induction false} AlertPositionsUpTo(size: nat, ticks: seq<Tick>, n: nat) returns (p: seq<nat>)
    requires n <= |ticks|
    ensures Ascending(p) && forall x: nat :: x in p <==> x < n && FaultAt(size, ticks, x)
    ensures RaisedAt(size, ticks, p, AlertsOf(size, ticks[..n]))
  {
    hide *;
    p := [];
    if n == 0 {
      NothingRaised(size, ticks);
    } else {
      p := AlertPositionsUpTo(size, ticks, n - 1);
      AlertsOneMore(size, ticks, n - 1);
      AscendingOneMore(p, n - 1);
      if FaultAt(size, ticks, n - 1) {
        RaisedAtOneMore(size, ticks, n - 1, p, AlertsOf(size, ticks[..n - 1]));
        p := p + [n - 1];
      } else {
        assert AlertsOf(size, ticks[..n - 1]) + [] == AlertsOf(size, ticks[..n - 1]);
      }
    }
  }

  /** The alerts of a run are, in order, one for each verdict of fault, with the names of that verdict. */
  lemma AlertPositions(size: nat, ticks: seq<Tick>) returns (p: seq<nat>)
    ensures Ascending(p) && forall x: nat :: x in p <==> FaultAt(size, ticks, x)
    ensures RaisedAt(size, ticks, p, AlertsOf(size, ticks))
  {
    hide VerdictAt, RaisedAt, AlertsOf, Ascending;
    p := AlertPositionsUpTo(size, ticks, |ticks|);
    assert ticks[..|ticks|] == ticks;
  }

  /** What an update does to any window: the buffer of each name in the mapping gets its value in front. */
  lemma UpdatedByMapping(w: Window, attributes: seq<Attribute>, i: nat)
    requires |w.names| == |w.samples| && i < |w.names| && Distinct(Names(attributes))
    ensures forall k :: 0 <= k < |attributes| && attributes[k].name == w.names[i]
                        ==> Updated(w, attributes).samples[i] == [attributes[k].value] + w.samples[i]
    ensures w.names[i] !in Names(attributes) ==> Updated(w, attributes).samples[i] == w.samples[i]
  {
    forall k | 0 <= k < |attributes| && attributes[k].name == w.names[i]
      ensures Updated(w, attributes).samples[i] == [attributes[k].value] + w.samples[i]
    {
      ValueByName(attributes, Names(attributes), k);
    }
    if w.names[i] !in Names(attributes) {
      NoValue(attributes, w.names[i]);
    }
  }

  lemma {:induction false} SmallWindowsAlertsAreDeaths(size: nat, names: seq<Descriptor>, ticks: seq<Tick>)
    requires 0 < size <= 10 && Steady(names, ticks)
    ensures forall a :: a in AlertsOf(size, ticks) ==> a == Alert([])
    ensures (forall t :: t in ticks ==> !t.dead) ==> AlertsOf(size, ticks) == []
  {
    if ticks != [] {
      SmallWindowsAlertsAreDeaths(size, names, ticks[..|ticks| - 1]);
      SmallWindowsOnlyReportDeath(size, names, ticks);
      assert ticks[|ticks| - 1] in ticks;
    }
  }

  /** A member that stays on the watchlist raises at most one alert, and one more per clearing. */
  lemma {:induction false} AtMostOneAlert(size: nat, names: seq<Descriptor>, ticks: seq<Tick>)
    requires size > 0 && Steady(names, ticks) && AlwaysWatched(ticks)
    requires forall t :: t in ticks ==> !t.used
    ensures |AlertsOf(size, ticks)| <= Resets(ticks) + if SinceReset(ticks) >= size then 1 else 0
  {
    if ticks != [] {
      AtMostOneAlert(size, names, ticks[..|ticks| - 1]);
      JudgedOnce(size, names, ticks);
    }
  }

  /** A mapping with the names of a steady run can be read into the run's window. */
  lemma SteadyIsReadable(size: nat, names: seq<Descriptor>, ticks: seq<Tick>, n: nat)
    requires size > 0 && Steady(names, ticks) && n < |ticks|
    ensures ticks[n].attributes.Some? ==>
              && Distinct(Names(ticks[n].attributes.value))
              && Readable(AtStart(Run(size, ticks[..n]).window, ticks[n]), ticks[n].attributes.value)
  {
    if ticks[n].attributes.Some? {
      var row := ticks[n].attributes.value;
      assert Names(row) == names;
      WindowTheorem(size, names, ticks[..n]);
      forall a | a in row ensures a.name in names {
        var i :| 0 <= i < |row| && row[i] == a;
        assert Names(row)[i] == a.name;
      }
    }
  }

  lemma AlertBounds(size: nat, names: seq<Descriptor>, ticks: seq<Tick>)
    requires size > 0 && Steady(names, ticks)
    ensures size <= 10 && (forall t :: t in ticks ==> !t.dead) ==> AlertsOf(size, ticks) == []
    ensures AlwaysWatched(ticks) && (forall t :: t in ticks ==> !t.used) ==> |AlertsOf(size, ticks)| <= 1 + Resets(ticks)
  {
    hide AlertsOf, Steady, Resets, SinceReset;
    if size <= 10 {
      SmallWindowsAlertsAreDeaths(size, names, ticks);
    }
    if AlwaysWatched(ticks) && forall t :: t in ticks ==> !t.used {
      AtMostOneAlert(size, names, ticks);
    }
  }

  /**
   The whole loop for a member with constant attributes: its alerts are those of the run. With a
   window of at most ten samples a member that stays alive raises none; a member that stays on the
   watchlist raises at most one, and one more each time the windows are cleared.
   */
  method Watch(size: nat, names: seq<Descriptor>, ticks: seq<Tick>, sqrt: real -> real) returns (alerts: seq<Alert>)
    requires size >= 2 && Steady(names, ticks) && IsSqrt(sqrt)
    ensures alerts == AlertsOf(size, ticks)
    ensures size <= 10 && (forall t :: t in ticks ==> !t.dead) ==> alerts == []
    ensures AlwaysWatched(ticks) && (forall t :: t in ticks ==> !t.used) ==> |alerts| <= 1 + Resets(ticks)
  {
    var monitor := new Monitor(size);
    var n := 0;
    assert ticks[..0] == [];
    while n < |ticks|
      invariant 0 <= n <= |ticks| && fresh(monitor) && monitor.size == size
      invariant monitor.window != null ==> fresh(monitor.window.buffers)
      invariant monitor.Valid() && monitor.Holds(Run(size, ticks[..n]).window)
      invariant monitor.alerts == AlertsOf(size, ticks[..n])
    {
      hide Run, Step, AlertsOf, Steady, IsSqrt, Readable, AtStart, Names, Resets, AlwaysWatched;
      RunOneMore(size, ticks, n);
      SteadyIsReadable(size, names, ticks, n);
      var _ := monitor.Iterate(ticks[n], sqrt, Run(size, ticks[..n]).window);
      n := n + 1;
    }
    assert ticks[..n] == ticks;
    alerts := monitor.GetEmittedAlerts();
    AlertBounds(size, names, ticks);
  }

  lemma RunOneMore(size: nat, ticks: seq<Tick>, n: nat)
    requires n < |ticks|
    ensures Run(size, ticks[..n + 1]) == Step(size, Run(size, ticks[..n]).window, ticks[n])
    ensures AlertsOf(size, ticks[..n + 1]) == AlertsOf(size, ticks[..n]) + AlertOf(Run(size, ticks[..n + 1]).verdict)
  {
    assert ticks[..n + 1][..n] == ticks[..n];
  }
}
