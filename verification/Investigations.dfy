/**
 The flag that says whether a failure is being investigated, driven by the running mean of alerts
 per main-loop iteration.
 */
module Investigations {
  import opened Statistics
  import opened CircularBuffers

  /** Alert counts as the buffer stores them. */
  function AsReals(counts: seq<nat>): (r: seq<real>)
    ensures |r| == |counts|
    ensures forall i :: 0 <= i < |r| ==> r[i] == counts[i] as real
  {
    seq(|counts|, i requires 0 <= i < |counts| => counts[i] as real)
  }

  function RunningMean(counts: seq<nat>): real
    requires counts != []
  {
    Mean(Reversed(AsReals(counts)))
  }

  /** The flag after one iteration: set by a mean above the threshold, cleared by one that is not. */
  predicate NextFlag(threshold: real, ongoing: bool, mean: real) {
    if !ongoing then mean > threshold else !(mean <= threshold)
  }

  /** The flag after iterations that brought these numbers of alerts. */
  predicate Ongoing(threshold: real, counts: seq<nat>) {
    counts != []
    && NextFlag(threshold, Ongoing(threshold, counts[..|counts| - 1]), RunningMean(counts))
  }

  class Investigation {
    const threshold: real
    var somethingIsGoingOn: bool
    const lastNrAlerts: CircularBuffer

    ghost predicate Valid(counts: seq<nat>)
      reads this, lastNrAlerts
    {
      && lastNrAlerts.Valid()
      && lastNrAlerts.buffer == Reversed(AsReals(counts))
      && somethingIsGoingOn == Ongoing(threshold, counts)
    }

    constructor (threshold: real, nrNormalisationValues: nat)
      requires nrNormalisationValues >= 2
      ensures Valid([]) && this.threshold == threshold && fresh(lastNrAlerts)
    {
      this.threshold, somethingIsGoingOn := threshold, false;
      lastNrAlerts := new CircularBuffer(nrNormalisationValues);
    }

    method CheckAbortCriteria(nrNewAlerts: nat, ghost counts: seq<nat>) returns (abort: bool)
      requires Valid(counts)
      modifies this`somethingIsGoingOn, lastNrAlerts
      ensures lastNrAlerts.Valid() && lastNrAlerts.buffer == Reversed(AsReals(counts + [nrNewAlerts]))
      ensures abort <==> old(somethingIsGoingOn) && RunningMean(counts + [nrNewAlerts]) <= threshold
      ensures somethingIsGoingOn == (old(somethingIsGoingOn) || RunningMean(counts + [nrNewAlerts]) > threshold)
    {
      var _ := lastNrAlerts.Push(nrNewAlerts as real);
      assert AsReals(counts + [nrNewAlerts])[..|counts|] == AsReals(counts);
      var meanNewAlerts := lastNrAlerts.GetMean();
      if !somethingIsGoingOn {
        if meanNewAlerts > threshold {
          somethingIsGoingOn := true;
        }
        return false;
      }
      return meanNewAlerts <= threshold;
    }

    /** The part of a main-loop iteration that concerns the flag. */
    method Iterate(nrNewAlerts: nat, ghost counts: seq<nat>) returns (aborted: bool)
      requires Valid(counts)
      modifies this`somethingIsGoingOn, lastNrAlerts
      ensures Valid(counts + [nrNewAlerts])
      ensures aborted <==> AbortAt(threshold, counts + [nrNewAlerts])
      ensures !old(somethingIsGoingOn) && somethingIsGoingOn <==> StartAt(threshold, counts + [nrNewAlerts])
    {
      aborted := CheckAbortCriteria(nrNewAlerts, counts);
      if aborted {
        somethingIsGoingOn := false;
      }
      assert (counts + [nrNewAlerts])[..|counts|] == counts;
    }
  }

  /** The last iteration opens an investigation: none is open and the mean exceeds the threshold. */
  predicate StartAt(threshold: real, counts: seq<nat>) {
    counts != [] && !Ongoing(threshold, counts[..|counts| - 1]) && RunningMean(counts) > threshold
  }

  /** The last iteration aborts: an investigation is open and the mean does not exceed the threshold. */
  predicate AbortAt(threshold: real, counts: seq<nat>) {
    counts != [] && Ongoing(threshold, counts[..|counts| - 1]) && RunningMean(counts) <= threshold
  }

  /** Starts and aborts are where the flag rises and falls. */
  lemma StartsAndAbortsAreEdges(threshold: real, counts: seq<nat>)
    requires counts != []
    ensures var before, now := Ongoing(threshold, counts[..|counts| - 1]), Ongoing(threshold, counts);
            && (StartAt(threshold, counts) <==> !before && now)
            && (AbortAt(threshold, counts) <==> before && !now)
  {
    hide RunningMean;
  }

  // ---------- the flag in closed form ----------

  function Total(counts: seq<nat>): nat {
    if counts == [] then 0 else Total(counts[..|counts| - 1]) + counts[|counts| - 1]
  }

  lemma {:induction false} TotalAppend(a: seq<nat>, b: seq<nat>)
    ensures Total(a + b) == Total(a) + Total(b)
  {
    if b == [] {
      assert a + b == a;
    } else {
      var n := |b| - 1;
      TotalAppend(a, b[..n]);
      assert (a + b)[..|a + b| - 1] == a + b[..n];
    }
  }

  lemma {:induction false} SumOfCounts(counts: seq<nat>)
    ensures Sum(AsReals(counts)) == Total(counts) as real
  {
    if counts != [] {
      var n := |counts| - 1;
      SumOfCounts(counts[..n]);
      assert AsReals(counts)[..n] == AsReals(counts[..n]);
    }
  }

  lemma MeanAgainst(n: real, t: real, m: real, threshold: real)
    requires n > 0.0 && n * m == t
    ensures m > threshold <==> t > threshold * n
  {
    var c := n * threshold;
    assert threshold * n == c;
    if m > threshold {
      ScaleStrictlyTo(n, threshold, m, c, t);
    } else {
      ScaleTo(n, m, threshold, t, c);
    }
  }

  lemma MeanExceeds(threshold: real, counts: seq<nat>)
    requires counts != []
    ensures RunningMean(counts) > threshold
            <==> Total(counts) as real > threshold * |counts| as real
  {
    hide *;
    var s, n := AsReals(counts), |counts| as real;
    var r := Reversed(s);
    ReversedIsPermutation(s);
    SumsOfPermutation(r, s, 0.0);
    SumOfCounts(counts);
    MeanTimesSize(r, n);
    MeanAgainst(n, Sum(r), Mean(r), threshold);
    MeanIsRunning(counts);
  }

  lemma MeanIsRunning(counts: seq<nat>)
    requires counts != []
    ensures RunningMean(counts) == Mean(Reversed(AsReals(counts)))
  {
  }

  /** After every iteration the flag is set exactly when all alerts so far exceed threshold times iterations. */
  lemma FlagTheorem(threshold: real, counts: seq<nat>)
    requires counts != []
    ensures Ongoing(threshold, counts) <==> Total(counts) as real > threshold * |counts| as real
  {
    MeanExceeds(threshold, counts);
  }

  // ---------- starts and aborts ----------

  /** The alerts so far exceed the threshold per iteration. */
  predicate Exceeds(threshold: real, counts: seq<nat>) {
    counts != [] && Total(counts) as real > threshold * |counts| as real
  }

  lemma FlagExceeds(threshold: real, counts: seq<nat>)
    ensures Ongoing(threshold, counts) <==> Exceeds(threshold, counts)
  {
    hide Total, RunningMean, NextFlag;
    if counts != [] {
      FlagTheorem(threshold, counts);
    }
  }

  /** The iteration that opens an investigation, and the one that aborts it, told by the alert totals alone. */
  lemma StartsAndAbortsByTotals(threshold: real, counts: seq<nat>)
    requires counts != []
    ensures var before := counts[..|counts| - 1];
            && (StartAt(threshold, counts) <==> !Exceeds(threshold, before) && Exceeds(threshold, counts))
            && (AbortAt(threshold, counts) <==> Exceeds(threshold, before) && !Exceeds(threshold, counts))
  {
    hide *;
    StartsAndAbortsAreEdges(threshold, counts);
    FlagExceeds(threshold, counts);
    FlagExceeds(threshold, counts[..|counts| - 1]);
  }

  /** Where the flag falls there is an abort. */
  lemma {:induction false} FallHasAbort(threshold: real, counts: seq<nat>, i: nat, j: nat)
    requires i < j <= |counts| && Ongoing(threshold, counts[..i]) && !Ongoing(threshold, counts[..j])
    ensures exists t :: i < t <= j && AbortAt(threshold, counts[..t])
    decreases j
  {
    hide Ongoing, RunningMean;
    StartsAndAbortsAreEdges(threshold, counts[..j]);
    assert counts[..j][..j - 1] == counts[..j - 1];
    if Ongoing(threshold, counts[..j - 1]) {
      assert AbortAt(threshold, counts[..j]);
    } else {
      FallHasAbort(threshold, counts, i, j - 1);
    }
  }

  /** Where the flag rises there is a start. */
  lemma {:induction false} RiseHasStart(threshold: real, counts: seq<nat>, i: nat, j: nat)
    requires i < j <= |counts| && !Ongoing(threshold, counts[..i]) && Ongoing(threshold, counts[..j])
    ensures exists t :: i < t <= j && StartAt(threshold, counts[..t])
    decreases j
  {
    hide Ongoing, RunningMean;
    StartsAndAbortsAreEdges(threshold, counts[..j]);
    assert counts[..j][..j - 1] == counts[..j - 1];
    if !Ongoing(threshold, counts[..j - 1]) {
      assert StartAt(threshold, counts[..j]);
    } else {
      RiseHasStart(threshold, counts, i, j - 1);
    }
  }

  /** Between two starts lies an abort; between two aborts, and before the first, lies a start. */
  lemma StartsAndAbortsAlternate(threshold: real, counts: seq<nat>, i: nat, j: nat)
    requires i < j <= |counts|
    ensures StartAt(threshold, counts[..i]) && StartAt(threshold, counts[..j])
            ==> exists t :: i < t < j && AbortAt(threshold, counts[..t])
    ensures AbortAt(threshold, counts[..i]) && AbortAt(threshold, counts[..j])
            ==> exists t :: i < t < j && StartAt(threshold, counts[..t])
    ensures AbortAt(threshold, counts[..j]) ==> exists t :: 0 < t < j && StartAt(threshold, counts[..t])
  {
    hide NextFlag, RunningMean;
    if i > 0 {
      StartsAndAbortsAreEdges(threshold, counts[..i]);
    }
    assert counts[..j][..j - 1] == counts[..j - 1];
    assert counts[..0] == [];
    if StartAt(threshold, counts[..i]) && StartAt(threshold, counts[..j]) {
      FallHasAbort(threshold, counts, i, j - 1);
    }
    if AbortAt(threshold, counts[..j]) {
      RiseHasStart(threshold, counts, 0, j - 1);
      if AbortAt(threshold, counts[..i]) {
        RiseHasStart(threshold, counts, i, j - 1);
      }
    }
  }

  lemma GapArithmetic(threshold: real, s: real, s': real, t: real, t': real, ds: real, dt: real)
    requires !(s > threshold * t) && s' > threshold * t'
    requires ds == s' - s && dt == t' - t
    ensures ds > threshold * dt
  {
    assert threshold * dt == threshold * t' - threshold * t;
  }

  /** The flag theorem with the totals named. */
  lemma FlagNamed(threshold: real, counts: seq<nat>, s: real, t: real)
    requires counts != [] && s == Total(counts) as real && t == |counts| as real
    ensures Ongoing(threshold, counts) <==> s > threshold * t
  {
    hide *;
    FlagTheorem(threshold, counts);
  }

  lemma RiseNeedsAlerts(threshold: real, a: seq<nat>, b: seq<nat>)
    requires a != [] && !Ongoing(threshold, a) && Ongoing(threshold, a + b)
    ensures Total(b) as real > threshold * |b| as real
  {
    hide *;
    TotalAppend(a, b);
    var s, s', ds := Total(a) as real, Total(a + b) as real, Total(b) as real;
    var t, t', dt := |a| as real, |a + b| as real, |b| as real;
    FlagNamed(threshold, a, s, t);
    FlagNamed(threshold, a + b, s', t');
    GapArithmetic(threshold, s, s', t, t', ds, dt);
  }

  /** From an abort to a later start the new alerts exceed the threshold per iteration. */
  lemma RestartNeedsAlerts(threshold: real, counts: seq<nat>, i: nat, j: nat)
    requires i < j <= |counts| && AbortAt(threshold, counts[..i]) && StartAt(threshold, counts[..j])
    ensures Total(counts[i..j]) as real > threshold * (j - i) as real
  {
    hide Ongoing, Total, RunningMean;
    StartsAndAbortsAreEdges(threshold, counts[..i]);
    StartsAndAbortsAreEdges(threshold, counts[..j]);
    assert counts[..j] == counts[..i] + counts[i..j];
    RiseNeedsAlerts(threshold, counts[..i], counts[i..j]);
  }

  // ---------- when no further alerts come ----------

  function Quiet(k: nat): (z: seq<nat>)
    ensures |z| == k && forall i :: 0 <= i < k ==> z[i] == 0
  {
    seq(k, i requires 0 <= i < k => 0)
  }

  lemma {:induction false} QuietAddsNothing(counts: seq<nat>, k: nat)
    ensures Total(counts + Quiet(k)) == Total(counts)
  {
    if k == 0 {
      assert counts + Quiet(k) == counts;
    } else {
      QuietAddsNothing(counts, k - 1);
      assert (counts + Quiet(k))[..|counts| + k - 1] == counts + Quiet(k - 1);
    }
  }

  lemma OngoingHasBegun(threshold: real, counts: seq<nat>)
    requires Ongoing(threshold, counts)
    ensures counts != []
  {
    hide NextFlag, RunningMean;
  }

  /** The total is used up after this many more quiet iterations. */
  ghost predicate UsedUp(threshold: real, counts: seq<nat>, k: nat) {
    Total(counts) as real <= threshold * (|counts| + k) as real
  }

  lemma QuietFlag(threshold: real, counts: seq<nat>, k: nat)
    requires |counts| + k > 0
    ensures Ongoing(threshold, counts + Quiet(k)) <==> !UsedUp(threshold, counts, k)
  {
    hide Ongoing, Total;
    FlagTheorem(threshold, counts + Quiet(k));
    QuietAddsNothing(counts, k);
  }

  lemma SomeMultipleExceeds(threshold: real, s: real) returns (k: nat)
    requires threshold > 0.0 && s >= 0.0
    ensures s <= threshold * k as real
  {
    var x := s / threshold;
    assert x * threshold == s;
    assert x >= 0.0;
    k := x.Floor + 1;
    var e := threshold * k as real;
    ScaleTo(threshold, x, k as real, s, e);
  }

  lemma UsedUpEventually(threshold: real, counts: seq<nat>) returns (k: nat)
    requires threshold > 0.0
    ensures UsedUp(threshold, counts, k)
  {
    k := SomeMultipleExceeds(threshold, Total(counts) as real);
    ScaleTo(threshold, k as real, (|counts| + k) as real, threshold * k as real, threshold * (|counts| + k) as real);
  }

  /** The least number of iterations from `from` on after which the total is used up. */
  lemma FirstUsedUp(threshold: real, counts: seq<nat>, from: nat, bound: nat) returns (k: nat)
    requires from <= bound && UsedUp(threshold, counts, bound)
    ensures from <= k <= bound && UsedUp(threshold, counts, k)
    ensures forall j :: from <= j < k ==> !UsedUp(threshold, counts, j)
    decreases bound - from
  {
    if UsedUp(threshold, counts, from) {
      k := from;
    } else {
      k := FirstUsedUp(threshold, counts, from + 1, bound);
    }
  }

  /**
   With a positive threshold and no further alerts an open investigation is aborted, exactly in the
   first later iteration at which the total no longer exceeds threshold times iterations.
   */
  lemma QuietInvestigationEnds(threshold: real, counts: seq<nat>) returns (k: nat)
    requires threshold > 0.0 && Ongoing(threshold, counts)
    ensures k > 0 && AbortAt(threshold, counts + Quiet(k)) && UsedUp(threshold, counts, k)
    ensures forall j :: 0 <= j < k ==> Ongoing(threshold, counts + Quiet(j)) && !UsedUp(threshold, counts, j)
  {
    hide Ongoing, UsedUp, Total;
    OngoingHasBegun(threshold, counts);
    var bound := UsedUpEventually(threshold, counts);
    k := FirstUsedUp(threshold, counts, 0, bound);
    forall j | 0 <= j <= k ensures Ongoing(threshold, counts + Quiet(j)) <==> !UsedUp(threshold, counts, j) {
      QuietFlag(threshold, counts, j);
    }
    NoQuietYet(counts);
    OneMoreQuiet(counts, k);
    hide RunningMean;
    StartsAndAbortsAreEdges(threshold, counts + Quiet(k));
  }

  lemma NoQuietYet(counts: seq<nat>)
    ensures counts + Quiet(0) == counts
  {
  }

  lemma OneMoreQuiet(counts: seq<nat>, k: nat)
    ensures k > 0 ==> (counts + Quiet(k))[..|counts + Quiet(k)| - 1] == counts + Quiet(k - 1)
  {
  }

  lemma StillExceeds(threshold: real, s: real, s': real, n: real, n': real)
    requires threshold <= 0.0 && s <= s' && n <= n' && s > threshold * n
    ensures s' > threshold * n'
  {
    var c, c' := threshold * n, threshold * n';
    assert -threshold * n == -c && -threshold * n' == -c';
    ScaleTo(-threshold, n, n', -c, -c');
  }

  lemma ExceedsOneMore(threshold: real, counts: seq<nat>)
    requires threshold <= 0.0 && counts != [] && Exceeds(threshold, counts[..|counts| - 1])
    ensures Exceeds(threshold, counts)
  {
    var before := counts[..|counts| - 1];
    var s, s' := Total(before) as real, Total(counts) as real;
    assert s <= s';
    StillExceeds(threshold, s, s', |before| as real, |counts| as real);
  }

  /** Without a positive threshold no investigation is ever aborted. */
  lemma NoThresholdNoAbort(threshold: real, counts: seq<nat>)
    requires threshold <= 0.0
    ensures !AbortAt(threshold, counts)
  {
    hide Exceeds, RunningMean, Ongoing;
    if AbortAt(threshold, counts) {
      StartsAndAbortsByTotals(threshold, counts);
      ExceedsOneMore(threshold, counts);
    }
  }
}
