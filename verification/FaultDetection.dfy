/**
 The three-sigma fault detector for one watched member: its attribute window, the verdict on a full
 window, and the loop that fills the window and asks for verdicts.
 */
module FaultDetection {
  import opened Wrappers
  import opened Sequences
  import opened Statistics
  import opened CircularBuffers

  type Descriptor = string

  /** One entry of an attribute mapping; a mapping lists its entries in key order, each name once. */
  datatype Attribute = Attribute(name: Descriptor, value: real)

  function Names(attributes: seq<Attribute>): (names: seq<Descriptor>)
    ensures |names| == |attributes|
    ensures forall i :: 0 <= i < |names| ==> names[i] == attributes[i].name
  {
    seq(|attributes|, i requires 0 <= i < |attributes| => attributes[i].name)
  }

  // ---------- windows as values ----------

  datatype Window = Window(names: seq<Descriptor>, samples: seq<seq<real>>)

  ghost predicate WellFormed(w: Window) {
    |w.names| == |w.samples| && Distinct(w.names)
  }

  /** The values a mapping holds for a name, newest in front. */
  function ValuesFor(attributes: seq<Attribute>, name: Descriptor): seq<real> {
    if attributes == [] then []
    else
      var n := |attributes| - 1;
      (if attributes[n].name == name then [attributes[n].value] else []) + ValuesFor(attributes[..n], name)
  }

  function Created(attributes: seq<Attribute>): (w: Window)
    ensures |w.samples| == |w.names| == |attributes|
    ensures forall i :: 0 <= i < |attributes| ==> w.samples[i] == [attributes[i].value]
  {
    Window(Names(attributes), seq(|attributes|, i requires 0 <= i < |attributes| => [attributes[i].value]))
  }

  /** An update needs a buffer for every name of the mapping. */
  ghost predicate Accepts(w: Window, attributes: seq<Attribute>) {
    forall a :: a in attributes ==> a.name in w.names
  }

  function Updated(w: Window, attributes: seq<Attribute>): (u: Window)
    requires |w.names| == |w.samples|
    ensures u.names == w.names && |u.samples| == |w.samples|
    ensures forall i :: 0 <= i < |w.names| ==> u.samples[i] == ValuesFor(attributes, w.names[i]) + w.samples[i]
  {
    Window(w.names, seq(|w.names|, i requires 0 <= i < |w.names| => ValuesFor(attributes, w.names[i]) + w.samples[i]))
  }

  lemma UpdatedByNothing(w: Window)
    requires |w.names| == |w.samples|
    ensures Updated(w, []) == w
  {
    forall j | 0 <= j < |w.names| ensures Updated(w, []).samples[j] == w.samples[j] {
      assert [] + w.samples[j] == w.samples[j];
    }
  }

  lemma AcceptsOneMore(w: Window, attributes: seq<Attribute>, n: nat)
    requires n < |attributes| && Accepts(w, attributes[..n])
    ensures Accepts(w, attributes[..n + 1]) <==> attributes[n].name in w.names
    ensures attributes[n].name !in w.names ==> !Accepts(w, attributes)
  {
    assert attributes[n] in attributes && attributes[n] in attributes[..n + 1];
    assert forall x :: x in attributes[..n + 1] <==> x in attributes[..n] || x == attributes[n];
  }

  lemma UpdatedByOneMore(w: Window, attributes: seq<Attribute>, n: nat, i: nat)
    requires WellFormed(w) && n < |attributes| && i < |w.names| && w.names[i] == attributes[n].name
    ensures var u := Updated(w, attributes[..n]);
            Updated(w, attributes[..n + 1]) == u.(samples := u.samples[i := [attributes[n].value] + u.samples[i]])
  {
    assert attributes[..n + 1][..n] == attributes[..n];
    var u, v := Updated(w, attributes[..n]), Updated(w, attributes[..n + 1]);
    forall j | 0 <= j < |w.names| && j != i ensures v.samples[j] == u.samples[j] {
      assert w.names[j] != attributes[n].name;
      assert [] + ValuesFor(attributes[..n], w.names[j]) == ValuesFor(attributes[..n], w.names[j]);
    }
    var x, rest := attributes[n].value, ValuesFor(attributes[..n], w.names[i]);
    assert [x] + rest + w.samples[i] == [x] + (rest + w.samples[i]);
    assert v.samples == u.samples[i := [x] + u.samples[i]];
  }

  /** The strict three-sigma rule on the newest sample of a buffer. */
  predicate Marked(samples: seq<real>) {
    |samples| > 0 && Outlier(samples, samples[0])
  }

  function Affected(w: Window): (a: seq<Descriptor>)
    requires |w.names| == |w.samples|
    ensures forall d :: d in a <==> exists i :: 0 <= i < |w.names| && w.names[i] == d && Marked(w.samples[i])
    decreases |w.names|
  {
    if w.names == [] then []
    else
      var n := |w.names| - 1;
      var before := Affected(Window(w.names[..n], w.samples[..n]));
      assert forall i :: 0 <= i < n ==> w.names[..n][i] == w.names[i] && w.samples[..n][i] == w.samples[i];
      if Marked(w.samples[n]) then before + [w.names[n]] else before
  }

  /** The names are those of the marked buffers, each once, in the window's order. */
  lemma {:induction false} AffectedPositions(w: Window) returns (p: seq<nat>)
    requires |w.names| == |w.samples|
    ensures Ascending(p) && forall x: nat :: x in p <==> x < |w.names| && Marked(w.samples[x])
    ensures |Affected(w)| == |p|
    ensures forall i :: 0 <= i < |p| ==> p[i] < |w.names| && Affected(w)[i] == w.names[p[i]]
    decreases |w.names|
  {
    hide Marked;
    p := [];
    if w.names != [] {
      var n := |w.names| - 1;
      var q := AffectedPositions(Window(w.names[..n], w.samples[..n]));
      AscendingOneMore(q, n);
      p := if Marked(w.samples[n]) then q + [n] else q;
    }
  }

  datatype Verdict = NotAsked | Asked(fault: bool, affected: seq<Descriptor>)

  /** A node that is not alive is at fault whatever its samples say. */
  function Judged(w: Window, dead: bool): (v: Verdict)
    requires |w.names| == |w.samples|
    ensures v.Asked?
  {
    if dead then Asked(true, []) else Asked(Affected(w) != [], Affected(w))
  }

  // ---------- windows as the program keeps them ----------

  class AttributeWindow {
    const names: seq<Descriptor>
    const buffers: seq<CircularBuffer>

    ghost predicate Valid()
      reads this, buffers
    {
      && |names| == |buffers| && Distinct(names)
      && (forall i, j :: 0 <= i < j < |buffers| ==> buffers[i] != buffers[j])
      && (forall i :: 0 <= i < |buffers| ==> buffers[i].Valid())
    }

    ghost predicate Holds(w: Window)
      reads this, buffers
    {
      && names == w.names && |w.samples| == |buffers|
      && forall i :: 0 <= i < |buffers| ==> buffers[i].buffer == w.samples[i]
    }

    ghost predicate Sized(size: nat)
      reads this, buffers
    {
      forall i :: 0 <= i < |buffers| ==> buffers[i].maxSize == size
    }

    constructor (names: seq<Descriptor>, buffers: seq<CircularBuffer>)
      ensures this.names == names && this.buffers == buffers
    {
      this.names, this.buffers := names, buffers;
    }

    /** Appends one sample to the buffer at a position. */
    method PushAt(i: nat, value: real, ghost w: Window)
      requires Valid() && Holds(w) && i < |buffers|
      modifies buffers[i]
      ensures Valid() && Holds(w.(samples := w.samples[i := [value] + w.samples[i]]))
      ensures buffers[i].maxSize == old(buffers[i].maxSize)
    {
      var _ := buffers[i].Push(value);
    }

    /** `ok` is false when a name has no buffer, where the program's lookup throws. */
    method Update(attributes: seq<Attribute>, ghost w: Window) returns (ok: bool)
      requires Valid() && Holds(w)
      modifies buffers
      ensures Valid()
      ensures ok <==> Accepts(w, attributes)
      ensures ok ==> Holds(Updated(w, attributes))
      ensures forall i :: 0 <= i < |buffers| ==> buffers[i].maxSize == old(buffers[i].maxSize)
    {
      var n := 0;
      UpdatedByNothing(w);
      assert attributes[..n] == [];
      while n < |attributes|
        invariant 0 <= n <= |attributes|
        invariant Valid() && Accepts(w, attributes[..n])
        invariant Holds(Updated(w, attributes[..n]))
        invariant forall i :: 0 <= i < |buffers| ==> buffers[i].maxSize == old(buffers[i].maxSize)
      {
        var i := Lookup(names, attributes[n].name);
        AcceptsOneMore(w, attributes, n);
        if i == |names| {
          return false;
        }
        UpdatedByOneMore(w, attributes, n, i);
        PushAt(i, attributes[n].value, Updated(w, attributes[..n]));
        n := n + 1;
      }
      assert attributes[..n] == attributes;
      return true;
    }

    method DetectFaults(dead: bool, sqrt: real -> real, ghost w: Window) returns (verdict: Verdict)
      requires Valid() && Holds(w) && IsSqrt(sqrt)
      ensures verdict == Judged(w, dead)
    {
      if dead {
        return Asked(true, []);
      }
      var affected := [];
      var n := 0;
      while n < |names|
        invariant 0 <= n <= |names|
        invariant affected == Affected(Window(w.names[..n], w.samples[..n]))
      {
        assert w.names[..n + 1][..n] == w.names[..n] && w.samples[..n + 1][..n] == w.samples[..n];
        var marked := false;
        if |buffers[n].buffer| != 0 {
          marked := OutsideBand(buffers[n], sqrt);
        }
        if marked {
          affected := affected + [names[n]];
        }
        n := n + 1;
      }
      assert w.names[..n] == w.names && w.samples[..n] == w.samples;
      return Asked(affected != [], affected);
    }
  }

  /** The comparison the program makes, with the deviation it computes. */
  method OutsideBand(buffer: CircularBuffer, sqrt: real -> real) returns (marked: bool)
    requires buffer.Valid() && |buffer.buffer| > 0 && IsSqrt(sqrt)
    ensures marked <==> Marked(buffer.buffer)
  {
    var mean := buffer.GetMean();
    var stdDev := buffer.GetStdDev(mean, sqrt);
    var currentValue := buffer.Current();
    assert stdDev == sqrt(Variance(buffer.buffer));
    ThreeSigmaSquared(mean, stdDev, currentValue);
    marked := mean - 3.0 * stdDev > currentValue || mean + 3.0 * stdDev < currentValue;
  }

  function Lookup(names: seq<Descriptor>, name: Descriptor): (i: nat)
    ensures i <= |names|
    ensures i < |names| ==> names[i] == name
    ensures i == |names| <==> name !in names
  {
    if names == [] then 0
    else if names[0] == name then 0
    else 1 + Lookup(names[1..], name)
  }

  method CreateAttrWindow(attributes: seq<Attribute>, size: nat) returns (window: AttributeWindow)
    requires size >= 2 && Distinct(Names(attributes))
    ensures fresh(window) && fresh(window.buffers)
    ensures window.Valid() && window.Sized(size) && window.Holds(Created(attributes))
  {
    var buffers: seq<CircularBuffer> := [];
    var n := 0;
    while n < |attributes|
      invariant 0 <= n <= |attributes| && |buffers| == n
      invariant fresh(buffers)
      invariant forall i, j :: 0 <= i < j < n ==> buffers[i] != buffers[j]
      invariant forall i :: 0 <= i < n ==>
                  buffers[i].Valid() && buffers[i].maxSize == size && buffers[i].buffer == [attributes[i].value]
    {
      var rawAttributes := new CircularBuffer(size);
      var _ := rawAttributes.Push(attributes[n].value);
      buffers := buffers + [rawAttributes];
      n := n + 1;
    }
    window := new AttributeWindow(Names(attributes), buffers);
  }

  // ---------- the loop, for one member ----------

  /**
   One iteration of the detection loop: whether the main loop has cleared all windows since the last
   one, the attributes read if the member is on the watchlist, whether it is a node that is not
   alive, and whether the watchlist gives it up after a verdict.
   */
  datatype Tick = Tick(reset: bool, attributes: Option<seq<Attribute>>, dead: bool, used: bool)

  datatype Outcome = Outcome(window: Option<Window>, verdict: Verdict)

  function Filled(window: Option<Window>, attributes: Option<seq<Attribute>>): (w: Option<Window>)
    requires window.Some? ==> |window.value.names| == |window.value.samples|
    ensures w.Some? ==> |w.value.names| == |w.value.samples|
  {
    if attributes.None? then window
    else if window.None? then Some(Created(attributes.value))
    else Some(Updated(window.value, attributes.value))
  }

  function AtStart(window: Option<Window>, tick: Tick): Option<Window> {
    if tick.reset then None else window
  }

  /** The program reads the first entry of a new window, and looks every name up in an old one. */
  ghost predicate Readable(window: Option<Window>, attributes: seq<Attribute>) {
    if window.None? then attributes != [] else Accepts(window.value, attributes)
  }

  /** Only the first attribute is asked whether the window is full. */
  predicate FirstFull(size: nat, w: Window) {
    |w.samples| > 0 && |w.samples[0]| == size
  }

  function Step(size: nat, window: Option<Window>, tick: Tick): (o: Outcome)
    requires window.Some? ==> |window.value.names| == |window.value.samples|
    ensures o.window.Some? ==> |o.window.value.names| == |o.window.value.samples|
  {
    var filled := Filled(AtStart(window, tick), tick.attributes);
    if filled.Some? && FirstFull(size, filled.value)
    then Outcome(if tick.used then None else filled, Judged(filled.value, tick.dead))
    else Outcome(filled, NotAsked)
  }

  /** What the loop has after all these iterations, and the verdict of the last one. */
  function Run(size: nat, ticks: seq<Tick>): (o: Outcome)
    ensures o.window.Some? ==> |o.window.value.names| == |o.window.value.samples|
  {
    if ticks == [] then Outcome(None, NotAsked)
    else Step(size, Run(size, ticks[..|ticks| - 1]).window, ticks[|ticks| - 1])
  }

  datatype Alert = Alert(affected: seq<Descriptor>)

  class Monitor {
    const size: nat
    var window: AttributeWindow?
    var alerts: seq<Alert>

    ghost predicate Valid()
      reads this, window, if window == null then {} else set b | b in window.buffers
    {
      size >= 2
      && (window != null ==> window.Valid() && window.Sized(size) && |window.names| > 0)
    }

    ghost predicate Holds(w: Option<Window>)
      reads this, window, if window == null then {} else set b | b in window.buffers
    {
      if window == null then w == None else w.Some? && window.Holds(w.value)
    }

    constructor (size: nat)
      requires size >= 2
      ensures Valid() && Holds(None) && this.size == size && alerts == []
    {
      this.size, window, alerts := size, null, [];
    }

    method Reset()
      modifies this`window
      ensures window == null
    {
      window := null;
    }

    /** The first half of an iteration: a window is created or updated. */
    method Fill(attributes: seq<Attribute>, ghost w: Option<Window>) returns (ok: bool)
      requires Valid() && Holds(w) && Distinct(Names(attributes))
      modifies this`window, if window == null then {} else set b | b in window.buffers
      ensures ok <==> Readable(w, attributes)
      ensures ok ==> Valid() && Holds(Filled(w, Some(attributes)))
      ensures window != null && (old(window) != null ==> window == old(window))
      ensures old(window) == null ==> fresh(window) && fresh(window.buffers)
    {
      if window == null {
        window := CreateAttrWindow(attributes, size);
        ok := attributes != [];
      } else {
        ok := window.Update(attributes, w.value);
      }
    }

    /**
     One iteration. `ok` is false when a new window gets no attribute, where the program reads past
     its end, and when a name is unknown to the window, where its lookup throws.
     */
    method Iterate(tick: Tick, sqrt: real -> real, ghost w: Option<Window>) returns (ok: bool)
      requires Valid() && Holds(w) && IsSqrt(sqrt)
      requires tick.attributes.Some? ==> Distinct(Names(tick.attributes.value))
      modifies this, if window == null then {} else set b | b in window.buffers
      ensures ok <==> (tick.attributes.Some? ==> Readable(AtStart(w, tick), tick.attributes.value))
      ensures window != null ==> window == old(window) || (fresh(window) && fresh(window.buffers))
      ensures !ok ==> alerts == old(alerts)
      ensures ok ==>
                var o := Step(size, w, tick);
                && Valid() && Holds(o.window)
                && alerts == old(alerts)
                     + if o.verdict.Asked? && o.verdict.fault then [Alert(o.verdict.affected)] else []
    {
      if tick.reset {
        Reset();
      }
      if tick.attributes.Some? {
        ok := Fill(tick.attributes.value, AtStart(w, tick));
        if !ok {
          return;
        }
      }
      ok := true;
      if window != null {
        hide Filled, Judged, IsSqrt;
        Judge(tick, sqrt, Filled(AtStart(w, tick), tick.attributes).value);
      }
    }

    /** The second half of an iteration: a full window gets its verdict. */
    method Judge(tick: Tick, sqrt: real -> real, ghost filled: Window)
      requires Valid() && Holds(Some(filled)) && IsSqrt(sqrt)
      modifies this`window, this`alerts
      ensures Valid() && (window == null || window == old(window))
      ensures FirstFull(size, filled) ==>
                && Holds(if tick.used then None else Some(filled))
                && var v := Judged(filled, tick.dead);
                   alerts == old(alerts) + if v.fault then [Alert(v.affected)] else []
      ensures !FirstFull(size, filled) ==> Holds(Some(filled)) && alerts == old(alerts)
    {
      if !window.buffers[0].Full() {
        return;
      }
      var verdict := window.DetectFaults(tick.dead, sqrt, filled);
      if verdict.fault {
        alerts := alerts + [Alert(verdict.affected)];
      }
      if tick.used {
        window := null;
      }
    }

    method GetEmittedAlerts() returns (output: seq<Alert>)
      modifies this`alerts
      ensures output == old(alerts) && alerts == []
    {
      output := alerts;
      alerts := [];
    }
  }
}
