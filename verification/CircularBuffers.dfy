/**
 The sample buffer as the program keeps it: every push inserts in front of the current element,
 nothing is ever dropped, and the configured size only says when the buffer counts as full.
 */
module CircularBuffers {
  import opened Statistics

  class CircularBuffer {
    var maxSize: nat
    var buffer: seq<real>
    var current: int  // position of the current element

    ghost predicate Valid()
      reads this
    {
      maxSize >= 2 && current == 0
    }

    constructor (maxSize: nat)
      requires maxSize >= 2
      ensures Valid() && this.maxSize == maxSize && buffer == []
    {
      this.maxSize, buffer, current := maxSize, [], 0;
    }

    method Push(value: real) returns (it: int)
      requires Valid()
      modifies this
      ensures Valid() && maxSize == old(maxSize)
      ensures buffer == [value] + old(buffer)
      ensures it == current
    {
      it := current;
      buffer := buffer[..current] + [value] + buffer[current..];
      current := if it == |buffer| && |buffer| == maxSize then 0 else it;
    }

    /** A run of pushes leaves the newest sample in front. */
    method PushAll(values: seq<real>)
      requires Valid()
      modifies this
      ensures Valid() && maxSize == old(maxSize)
      ensures buffer == Reversed(values) + old(buffer)
      ensures old(buffer) == [] ==> (Full() <==> |values| == maxSize)
      ensures |values| > 0 ==> buffer[current] == values[|values| - 1]
    {
      var n := 0;
      while n < |values|
        invariant 0 <= n <= |values|
        invariant Valid() && maxSize == old(maxSize)
        invariant buffer == Reversed(values[..n]) + old(buffer)
      {
        assert values[..n + 1][..n] == values[..n];
        var _ := Push(values[n]);
        n := n + 1;
      }
      assert values[..n] == values;
    }

    method Current() returns (value: real)
      requires Valid() && |buffer| > 0
      ensures value == buffer[0]
    {
      value := buffer[current];
    }

    /** Position found by stepping `offset` elements from the current one. */
    method CurrentAt(offset: int) returns (i: nat)
      requires Valid() && 0 < |buffer| < TWO_TO_THE_63
      requires -TWO_TO_THE_63 <= offset < TWO_TO_THE_63
      ensures i < |buffer|
      ensures offset >= 0 ==> i == offset % |buffer|
      ensures offset < 0 ==> (i == offset % |buffer| <==> TWO_TO_THE_64 % |buffer| == 0)
    {
      OffsetTheorem(current + offset, |buffer|);
      i := ComputedOffset(current + offset, |buffer|);
    }

    predicate Full()
      reads this
    {
      |buffer| == maxSize
    }

    method GetMean() returns (mean: real)
      requires |buffer| >= 1
      ensures mean == Mean(buffer)
    {
      var sum := 0.0;
      var n := 0;
      while n < |buffer|
        invariant 0 <= n <= |buffer|
        invariant sum == Sum(buffer[..n])
      {
        assert buffer[..n + 1][..n] == buffer[..n];
        sum := sum + buffer[n];
        n := n + 1;
      }
      assert buffer[..n] == buffer;
      mean := sum / |buffer| as real;
    }

    method GetStdDev(mean: real, sqrt: real -> real) returns (dev: real)
      requires |buffer| >= 1
      ensures dev == sqrt(SumSquares(buffer, mean) / |buffer| as real)
    {
      var sum := 0.0;
      var n := 0;
      while n < |buffer|
        invariant 0 <= n <= |buffer|
        invariant sum == SumSquares(buffer[..n], mean)
      {
        assert buffer[..n + 1][..n] == buffer[..n];
        sum := sum + (buffer[n] - mean) * (buffer[n] - mean);
        n := n + 1;
      }
      assert buffer[..n] == buffer;
      dev := sqrt(sum / |buffer| as real);
    }
  }

  // ---------- the buffer and a sliding window ----------

  /** The push history read backwards: what a buffer holds after these pushes. */
  function Reversed(h: seq<real>): (r: seq<real>)
    ensures |r| == |h|
  {
    if h == [] then [] else [h[|h| - 1]] + Reversed(h[..|h| - 1])
  }

  /** What a window of the given size that drops its oldest samples would hold. */
  function SlidingWindow(h: seq<real>, size: nat): (w: seq<real>)
    ensures |w| == if |h| <= size then |h| else size
  {
    if |h| <= size then h else h[|h| - size..]
  }

  /** Position by position: the history backwards, and the latest samples of it. */
  lemma {:induction false} ReversedAt(h: seq<real>, k: nat)
    requires k < |h|
    ensures Reversed(h)[k] == h[|h| - 1 - k]
  {
    if k > 0 {
      ReversedAt(h[..|h| - 1], k - 1);
    }
  }

  lemma WindowAt(h: seq<real>, size: nat, k: nat)
    requires k < |SlidingWindow(h, size)|
    ensures SlidingWindow(h, size)[k] == h[|h| - |SlidingWindow(h, size)| + k]
  {
  }

  lemma {:induction false} ReversedIsPermutation(h: seq<real>)
    ensures multiset(Reversed(h)) == multiset(h)
  {
    if h != [] {
      var n := |h| - 1;
      ReversedIsPermutation(h[..n]);
      assert h == h[..n] + [h[n]];
    }
  }

  /**
   As long as no more samples were pushed than the configured size, mean, variance and verdict are
   those of a sliding window; the buffer is full exactly at that number of pushes.
   */
  lemma BufferIsSlidingWindow(h: seq<real>, size: nat)
    requires 0 < |h| <= size
    ensures Reversed(h)[0] == h[|h| - 1]
    ensures Mean(Reversed(h)) == Mean(SlidingWindow(h, size))
    ensures Variance(Reversed(h)) == Variance(SlidingWindow(h, size))
    ensures Outlier(Reversed(h), Reversed(h)[0]) <==> Outlier(SlidingWindow(h, size), h[|h| - 1])
  {
    ReversedIsPermutation(h);
    OrderDoesNotMatter(Reversed(h), h, h[|h| - 1]);
  }

  // ---------- exactly when the two agree ----------

  lemma MeanOfPermutation(s: seq<real>, t: seq<real>)
    requires |s| > 0 && multiset(s) == multiset(t)
    ensures |t| == |s| && Mean(s) == Mean(t)
  {
    hide Mean, Sum, SumSquares, Variance, Outlier;
    OrderDoesNotMatter(s, t, 0.0);
  }

  lemma MeanFromSum(s: seq<real>, n: real, x: real)
    requires |s| > 0 && n == |s| as real
    ensures Mean(s) == x <==> Sum(s) == n * x
  {
    hide *;
    MeanTimesSize(s, n);
    if Sum(s) == n * x {
      EqualAfterScaling(n, Mean(s), x);
    }
  }

  lemma SpikeLeavesWindow(n: nat, size: nat)
    requires 0 < size < n
    ensures SlidingWindow(Spike(n), size) == Zeros(size)
  {
  }

  /** A one in the far past: the buffer still averages it in, the window has dropped it. */
  lemma OldSpikeSeparates(n: nat, size: nat)
    requires 0 < size < n
    ensures Mean(Reversed(Spike(n))) != Mean(SlidingWindow(Spike(n), size))
  {
    hide *;
    ReversedIsPermutation(Spike(n));
    MeanOfPermutation(Spike(n), Reversed(Spike(n)));
    SpikeLeavesWindow(n, size);
    SpikeSum(n);
    MeanFromSum(Spike(n), n as real, 0.0);
    ZerosSum(size);
    MeanFromSum(Zeros(size), size as real, 0.0);
  }

  /**
   After `n` pushes the buffer has the mean of a sliding window, whatever the samples, if and only
   if no more were pushed than the window's size.
   */
  lemma MeanIsWindowMeanIff(n: nat, size: nat)
    requires n > 0 && size > 0
    ensures (forall h: seq<real> :: |h| == n ==> Mean(Reversed(h)) == Mean(SlidingWindow(h, size))) <==> n <= size
  {
    if n <= size {
      forall h: seq<real> | |h| == n ensures Mean(Reversed(h)) == Mean(SlidingWindow(h, size)) {
        BufferIsSlidingWindow(h, size);
      }
    } else {
      OldSpikeSeparates(n, size);
    }
  }

  /** The two verdicts on the newest sample. */
  ghost predicate SameVerdict(h: seq<real>, size: nat)
    requires |h| > 0 && size > 0
  {
    Outlier(Reversed(h), h[|h| - 1]) <==> Outlier(SlidingWindow(h, size), h[|h| - 1])
  }

  /** Zeros, then a one. */
  function Jump(n: nat): (h: seq<real>)
    requires n > 0
    ensures |h| == n && h[n - 1] == 1.0
  {
    Zeros(n - 1) + [1.0]
  }

  lemma JumpFires(n: nat)
    requires n >= 11
    ensures Outlier(Jump(n), 1.0) && Outlier(Reversed(Jump(n)), 1.0)
  {
    hide Outlier;
    SpikeFires(n);
    ReversedIsPermutation(Jump(n));
    assert multiset(Jump(n)) == multiset(Spike(n));
    OrderDoesNotMatter(Spike(n), Jump(n), 1.0);
    OrderDoesNotMatter(Jump(n), Reversed(Jump(n)), 1.0);
  }

  /** The same jump after one huge sample that lifts the mean to the jump itself. */
  function MaskedJump(n: nat): (h: seq<real>)
    requires n > 1
    ensures |h| == n && h[n - 1] == 1.0
  {
    [(n - 1) as real] + Jump(n - 1)
  }

  lemma MaskedJumpSum(n: nat)
    requires n > 1
    ensures Sum(MaskedJump(n)) == n as real
  {
    hide Sum, SumSquares, Square;
    SumAppend([(n - 1) as real], Jump(n - 1));
    SumAppend(Zeros(n - 2), [1.0]);
    SingleSums((n - 1) as real, 0.0);
    SingleSums(1.0, 0.0);
    ZerosSum(n - 2);
  }

  lemma MeanIsNoOutlier(s: seq<real>)
    requires |s| > 0
    ensures !Outlier(s, Mean(s))
  {
    hide Mean, Variance;
  }

  lemma MaskedJumpIsQuiet(n: nat)
    requires n > 1
    ensures !Outlier(Reversed(MaskedJump(n)), 1.0)
  {
    hide *;
    var h := MaskedJump(n);
    MaskedJumpSum(n);
    MeanFromSum(h, n as real, 1.0);
    MeanIsNoOutlier(h);
    ReversedIsPermutation(h);
    OrderDoesNotMatter(h, Reversed(h), 1.0);
  }

  lemma VerdictsDiffer(n: nat, size: nat)
    requires 0 < size < n && n > 10
    ensures exists h: seq<real> :: |h| == n && !SameVerdict(h, size)
  {
    hide Outlier;
    if size <= 10 {
      var h := Jump(n);
      JumpFires(n);
      SmallWindowsNeverFire(SlidingWindow(h, size), size - 1);
      assert !SameVerdict(h, size);
    } else {
      var h := MaskedJump(n);
      MaskedJumpIsQuiet(n);
      assert SlidingWindow(h, size) == Jump(size);
      JumpFires(size);
      assert !SameVerdict(h, size);
    }
  }

  /**
   After `n` pushes the buffer gives the verdict of a sliding window, whatever the samples, if and
   only if no more were pushed than the window's size or too few for either to mark anything.
   */
  lemma VerdictIsWindowVerdictIff(n: nat, size: nat)
    requires n > 0 && size > 0
    ensures (forall h: seq<real> :: |h| == n ==> SameVerdict(h, size)) <==> n <= size || n <= 10
  {
    hide Outlier;
    if n <= size || n <= 10 {
      forall h: seq<real> | |h| == n ensures SameVerdict(h, size) {
        if n <= size {
          BufferIsSlidingWindow(h, size);
        } else {
          SmallWindowsNeverFire(Reversed(h), 0);
          SmallWindowsNeverFire(SlidingWindow(h, size), size - 1);
        }
      }
    } else {
      VerdictsDiffer(n, size);
    }
  }

  // ---------- stepping through the buffer ----------

  const TWO_TO_THE_63 := 0x8000_0000_0000_0000
  const TWO_TO_THE_64 := 0x1_0000_0000_0000_0000

  /** Conversion of a signed 64-bit value to an unsigned one. */
  function ToUnsigned(s: int): (u: nat)
    requires -TWO_TO_THE_63 <= s < TWO_TO_THE_63
    ensures u < TWO_TO_THE_64
  {
    if s < 0 then s + TWO_TO_THE_64 else s
  }

  /** Conversion of an unsigned 64-bit value to a signed one. */
  function ToSigned(u: nat): int
    requires u < TWO_TO_THE_64
  {
    if u < TWO_TO_THE_63 then u else u - TWO_TO_THE_64
  }

  /** The remainder is taken of the unsigned sum, so the correction for negative remainders is idle. */
  function ComputedOffset(s: int, n: nat): (r: int)
    requires -TWO_TO_THE_63 <= s < TWO_TO_THE_63 && 0 < n < TWO_TO_THE_63
    ensures 0 <= r < n
  {
    var r := ToSigned(ToUnsigned(s) % n);
    if r < 0 then r + n else r
  }

  lemma RemainderOfMultiple(k: int, n: nat)
    requires n > 0
    ensures (k * n) % n == 0
  {
    SameRemainder(k * n, 0, k, n);
  }

  lemma SameRemainder(a: int, b: int, k: int, n: nat)
    requires n > 0 && a == b + k * n
    ensures a % n == b % n
  {
    var q, r := b / n, b % n;
    assert a == (q + k) * n + r;
    QuotientIsUnique(a, q + k, r, a / n, a % n, n);
  }

  lemma QuotientIsUnique(a: int, q: int, r: int, p: int, s: int, n: nat)
    requires n > 0 && a == q * n + r && a == p * n + s && 0 <= r < n && 0 <= s < n
    ensures q == p && r == s
  {
    assert (q - p) * n == s - r;
    assert q - p >= 1 ==> (q - p) * n >= n;
    assert q - p <= -1 ==> (q - p) * n <= -1 * n;
  }

  /** One step back from the front of three elements does not reach the last one. */
  lemma StepBackMisses()
    ensures ComputedOffset(-1, 3) == 0 && (-1) % 3 == 2
  {
  }

  lemma OffsetTheorem(s: int, n: nat)
    requires -TWO_TO_THE_63 <= s < TWO_TO_THE_63 && 0 < n < TWO_TO_THE_63
    ensures s >= 0 ==> ComputedOffset(s, n) == s % n
    ensures s < 0 ==> (ComputedOffset(s, n) == s % n <==> TWO_TO_THE_64 % n == 0)
  {
    if s < 0 {
      var t := s + TWO_TO_THE_64;
      assert t == (t / n) * n + t % n && s == (s / n) * n + s % n;
      if t % n == s % n {
        assert TWO_TO_THE_64 == (t / n - s / n) * n;
        RemainderOfMultiple(t / n - s / n, n);
      }
      if TWO_TO_THE_64 % n == 0 {
        assert TWO_TO_THE_64 == (TWO_TO_THE_64 / n) * n;
        SameRemainder(t, s, TWO_TO_THE_64 / n, n);
      }
    }
  }
}
