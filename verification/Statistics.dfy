/**
 Mean, population variance and the three-sigma rule over exact reals.
 */
module Statistics {
  import opened Sequences

  /** Left fold, as `std::accumulate` runs over the buffer. */
  function Sum(s: seq<real>): real {
    if s == [] then 0.0 else Sum(s[..|s| - 1]) + s[|s| - 1]
  }

  function SumSquares(s: seq<real>, m: real): (q: real)
    ensures q >= 0.0
  {
    if s == [] then 0.0
    else SumSquares(s[..|s| - 1], m) + Square(s[|s| - 1] - m)
  }

  function Square(x: real): (y: real)
    ensures y >= 0.0
  {
    x * x
  }

  function Mean(s: seq<real>): real
    requires |s| > 0
  {
    Sum(s) / |s| as real
  }

  function Variance(s: seq<real>): (v: real)
    requires |s| > 0
    ensures v >= 0.0
  {
    SumSquares(s, Mean(s)) / |s| as real
  }

  /** The strict three-sigma rule, stated without the square root. */
  predicate Outlier(s: seq<real>, x: real)
    requires |s| > 0
  {
    Square(x - Mean(s)) > 9.0 * Variance(s)
  }

  // ---------- the rule with and without the square root ----------

  /** What is asked of the library's square root: the non-negative root of every non-negative number. */
  ghost predicate IsSqrt(sqrt: real -> real) {
    forall v: real :: v >= 0.0 ==> sqrt(v) >= 0.0 && Square(sqrt(v)) == v
  }

  lemma Scale(n: real, a: real, b: real)
    requires n >= 0.0 && a <= b
    ensures n * a <= n * b
  {
  }

  lemma ScaleTo(n: real, a: real, b: real, na: real, nb: real)
    requires n >= 0.0 && a <= b && na == n * a && nb == n * b
    ensures na <= nb
  {
    Scale(n, a, b);
  }

  lemma ScaleStrictly(n: real, a: real, b: real)
    requires n > 0.0 && a < b
    ensures n * a < n * b
  {
  }

  lemma ScaleStrictlyTo(n: real, a: real, b: real, na: real, nb: real)
    requires n > 0.0 && a < b && na == n * a && nb == n * b
    ensures na < nb
  {
    ScaleStrictly(n, a, b);
  }

  lemma CancelFactor(n: real, a: real, b: real)
    requires n > 0.0 && n * a <= n * b
    ensures a <= b
  {
  }

  lemma ProductLess(a: real, b: real)
    requires 0.0 <= b < a
    ensures b * b < a * a
  {
    ScaleStrictly(a + b, b, a);
  }

  lemma ProductAtMost(a: real, b: real)
    requires -b <= a <= b
    ensures a * a <= b * b
  {
    Scale(a + b, a, b);
  }

  lemma SquareLess(a: real, b: real)
    requires 0.0 <= b < a
    ensures Square(b) < Square(a)
  {
    ProductLess(a, b);
  }

  lemma SquareAtMost(a: real, b: real)
    requires -b <= a <= b
    ensures Square(a) <= Square(b)
  {
    ProductAtMost(a, b);
  }

  lemma SquarePositive(t: real)
    requires t != 0.0
    ensures Square(t) > 0.0
  {
    if t > 0.0 {
      SquareLess(t, 0.0);
    } else {
      SquareLess(-t, 0.0);
      assert Square(-t) == Square(t);
    }
  }

  /** Leaving the band of three deviations around the mean is a comparison of squares. */
  lemma ThreeSigmaSquared(mean: real, dev: real, x: real)
    requires dev >= 0.0
    ensures mean - 3.0 * dev > x || mean + 3.0 * dev < x <==> Square(x - mean) > 9.0 * Square(dev)
  {
    var d := x - mean;
    assert Square(3.0 * dev) == 9.0 * Square(dev);
    if d > 3.0 * dev {
      SquareLess(d, 3.0 * dev);
    } else if -d > 3.0 * dev {
      SquareLess(-d, 3.0 * dev);
      assert Square(-d) == Square(d);
    } else {
      SquareAtMost(d, 3.0 * dev);
    }
  }

  // ---------- sums ----------

  lemma EmptySums(m: real)
    ensures Sum([]) == 0.0 && SumSquares([], m) == 0.0
  {
  }

  lemma LastSums(s: seq<real>, m: real)
    requires s != []
    ensures var n := |s| - 1;
            && Sum(s) == Sum(s[..n]) + s[n]
            && SumSquares(s, m) == SumSquares(s[..n], m) + Square(s[n] - m)
  {
    hide Square;
  }

  lemma OneMoreSums(s: seq<real>, x: real, m: real)
    ensures Sum(s + [x]) == Sum(s) + x && SumSquares(s + [x], m) == SumSquares(s, m) + Square(x - m)
  {
    hide Square;
    assert (s + [x])[..|s|] == s;
  }

  lemma {:induction false} SumAppend(s: seq<real>, t: seq<real>)
    ensures Sum(s + t) == Sum(s) + Sum(t)
  {
    if t == [] {
      assert s + t == s;
    } else {
      var n := |t| - 1;
      SumAppend(s, t[..n]);
      assert (s + t)[..|s + t| - 1] == s + t[..n];
    }
  }

  lemma {:induction false} SumSquaresAppend(s: seq<real>, t: seq<real>, m: real)
    ensures SumSquares(s + t, m) == SumSquares(s, m) + SumSquares(t, m)
  {
    if t == [] {
      assert s + t == s;
    } else {
      var n := |t| - 1;
      SumSquaresAppend(s, t[..n], m);
      assert (s + t)[..|s + t| - 1] == s + t[..n];
    }
  }

  lemma Around(s: seq<real>, j: nat)
    requires j < |s|
    ensures s == s[..j] + ([s[j]] + s[j + 1..]) && RemoveAt(s, j) == s[..j] + s[j + 1..]
  {
  }

  lemma AppendTwice(a: seq<real>, b: seq<real>, c: seq<real>, m: real)
    ensures Sum(a + (b + c)) == Sum(a) + (Sum(b) + Sum(c))
    ensures SumSquares(a + (b + c), m) == SumSquares(a, m) + (SumSquares(b, m) + SumSquares(c, m))
  {
    hide *;
    SumAppend(a, b + c);
    SumAppend(b, c);
    SumSquaresAppend(a, b + c, m);
    SumSquaresAppend(b, c, m);
  }

  lemma SingleSums(x: real, m: real)
    ensures Sum([x]) == x && SumSquares([x], m) == Square(x - m)
  {
    hide Square;
    assert [x][..0] == [];
  }

  lemma TakeOut(s: seq<real>, j: nat, m: real)
    requires j < |s|
    ensures Sum(s) == Sum(RemoveAt(s, j)) + s[j]
    ensures SumSquares(s, m) == SumSquares(RemoveAt(s, j), m) + Square(s[j] - m)
    ensures multiset(s) == multiset(RemoveAt(s, j)) + multiset{s[j]}
  {
    hide *;
    Around(s, j);
    var a, b, c := s[..j], [s[j]], s[j + 1..];
    AppendTwice(a, b, c, m);
    SumAppend(a, c);
    SumSquaresAppend(a, c, m);
    SingleSums(s[j], m);
  }

  // ---------- no sample is far from the mean of few samples ----------

  lemma ScaledSquares(n: real, t: real, a: real, p: real)
    requires p == n * a
    ensures n * (n * Square(a)) == Square(p) && n * (2.0 * (t * a)) == 2.0 * (t * p)
  {
    assert n * Square(a) == p * a;
  }

  lemma SquareOfDifference(t: real, p: real)
    ensures Square(t - p) == Square(t) - 2.0 * (t * p) + Square(p)
  {
  }

  lemma DistributeSlack(n: real, q: real, x: real, y: real)
    ensures n * (q + x - y) == n * q + n * x - n * y
  {
  }

  lemma CrossTermBound(n: real, t: real, q: real, a: real)
    requires n >= 1.0 && Square(t) <= n * q
    ensures 2.0 * (t * a) <= q + n * Square(a)
  {
    hide Square;
    var x, y, p := n * Square(a), 2.0 * (t * a), n * a;
    ScaledSquares(n, t, a, p);
    SquareOfDifference(t, p);
    DistributeSlack(n, q, x, y);
    CancelProduct(n, q + x - y, n * (q + x - y));
  }

  lemma CancelProduct(n: real, x: real, nx: real)
    requires n > 0.0 && nx == n * x && nx >= 0.0
    ensures x >= 0.0
  {
    CancelFactor(n, 0.0, x);
  }

  lemma SquareOfSum(n: real, t: real, q: real, a: real)
    requires Square(t) <= n * q && 2.0 * (t * a) <= q + n * Square(a)
    ensures Square(t + a) <= (n + 1.0) * (q + Square(a))
  {
    assert Square(t + a) == Square(t) + 2.0 * (t * a) + Square(a);
    assert (n + 1.0) * (q + Square(a)) == n * q + q + n * Square(a) + Square(a);
  }

  lemma CauchySchwarzStep(n: real, t: real, q: real, a: real)
    requires (n == 0.0 || n >= 1.0) && q >= 0.0 && Square(t) <= n * q
    ensures Square(t + a) <= (n + 1.0) * (q + Square(a))
  {
    if n == 0.0 {
      if t != 0.0 {
        SquarePositive(t);
      }
      assert t + a == a && (n + 1.0) * (q + Square(a)) == q + Square(a);
    } else {
      CrossTermBound(n, t, q, a);
      SquareOfSum(n, t, q, a);
    }
  }

  lemma CauchySchwarzExtend(n: real, m: real, t: real, q: real, x: real, n': real, t': real, q': real)
    requires (n' == 0.0 || n' >= 1.0) && q' >= 0.0
    requires n == n' + 1.0 && t == t' + x && q == q' + Square(x - m)
    requires Square(t' - n' * m) <= n' * q'
    ensures Square(t - n * m) <= n * q
  {
    hide Square;
    var d := Square(x - m);
    CauchySchwarzStep(n', t' - n' * m, q', x - m);
    assert (t' - n' * m) + (x - m) == t - n * m;
    assert (n' + 1.0) * (q' + d) == n * q;
  }

  // Totals are passed as parameters below, so that the arithmetic is about plain numbers.

  lemma {:induction false} CauchySchwarz(s: seq<real>, m: real, n: real, t: real, q: real)
    requires n == |s| as real && t == Sum(s) && q == SumSquares(s, m)
    ensures Square(t - n * m) <= n * q
  {
    if s == [] {
      assert t - n * m == 0.0 && n * q == 0.0;
    } else {
      var k := |s| - 1;
      var x := s[k];
      var n', t', q' := |s[..k]| as real, Sum(s[..k]), SumSquares(s[..k], m);
      CauchySchwarz(s[..k], m, n', t', q');
      CauchySchwarzExtend(n, m, t, q, x, n', t', q');
    }
  }

  lemma MeanTimesSize(s: seq<real>, n: real)
    requires |s| > 0 && n == |s| as real
    ensures n > 0.0 && n * Mean(s) == Sum(s) && n * Variance(s) == SumSquares(s, Mean(s))
  {
    hide Sum, SumSquares;
    var m := Mean(s);
    TimesQuotient(n, Sum(s));
    TimesQuotient(n, SumSquares(s, m));
  }

  lemma TimesQuotient(n: real, x: real)
    requires n > 0.0
    ensures n * (x / n) == x
  {
  }

  lemma SamuelsonArithmetic(k: real, m: real, x: real, v: real, t: real, q: real)
    requires k >= 0.0
    requires (k + 1.0) * m == t + x && (k + 1.0) * v == q + Square(x - m)
    requires Square(t - k * m) <= k * q
    ensures Square(x - m) <= k * v
  {
    var n, d := k + 1.0, Square(x - m);
    assert t - k * m == m - x;
    assert Square(m - x) == d;
    assert n * (k * v) == k * (n * v);
    assert k * (q + d) == k * q + k * d;
    CancelFactor(n, d, k * v);
  }

  lemma SamuelsonAround(s: seq<real>, j: nat, k: real, m: real, v: real)
    requires j < |s| && k == (|s| - 1) as real
    requires (k + 1.0) * m == Sum(s) && (k + 1.0) * v == SumSquares(s, m)
    ensures Square(s[j] - m) <= k * v
  {
    hide *;
    var x, rest := s[j], RemoveAt(s, j);
    var t, q := Sum(rest), SumSquares(rest, m);
    assert Sum(s) == t + x && SumSquares(s, m) == q + Square(x - m) by {
      TakeOut(s, j, m);
    }
    assert Square(t - k * m) <= k * q by {
      CauchySchwarz(rest, m, k, t, q);
    }
    SamuelsonArithmetic(k, m, x, v, t, q);
  }

  lemma SamuelsonSized(s: seq<real>, j: nat, n: real, m: real, v: real)
    requires j < |s| && n == |s| as real && n * m == Sum(s) && n * v == SumSquares(s, m)
    ensures Square(s[j] - m) <= (n - 1.0) * v
  {
    SamuelsonAround(s, j, n - 1.0, m, v);
  }

  /** Samuelson's inequality. */
  lemma Samuelson(s: seq<real>, j: nat)
    requires j < |s|
    ensures Square(s[j] - Mean(s)) <= (|s| as real - 1.0) * Variance(s)
  {
    hide *;
    var n := |s| as real;
    MeanTimesSize(s, n);
    SamuelsonSized(s, j, n, Mean(s), Variance(s));
  }

  lemma NineTimes(n: real, v: real, d: real)
    requires n <= 9.0 && v >= 0.0 && d <= n * v
    ensures d <= 9.0 * v
  {
    var c := n * v;
    assert c <= 9.0 * v;
  }

  /** With at most ten samples no sample of the window is ever an outlier. */
  lemma SmallWindowsNeverFire(s: seq<real>, j: nat)
    requires j < |s| <= 10
    ensures !Outlier(s, s[j])
  {
    Samuelson(s, j);
    NineTimes(|s| as real - 1.0, Variance(s), Square(s[j] - Mean(s)));
  }

  function Copies(n: nat, x: real): (s: seq<real>)
    ensures |s| == n && forall i :: 0 <= i < n ==> s[i] == x
  {
    if n == 0 then [] else Copies(n - 1, x) + [x]
  }

  lemma {:induction false} CopiesSums(n: nat, x: real, m: real, k: real, d: real)
    requires k == n as real && d == Square(x - m)
    ensures Sum(Copies(n, x)) == k * x && SumSquares(Copies(n, x), m) == k * d
  {
    hide Sum, SumSquares, Square;
    if n == 0 {
      EmptySums(m);
      NoTimes(k, x, d);
    } else {
      CopiesSums(n - 1, x, m, k - 1.0, d);
      OneMoreSums(Copies(n - 1, x), x, m);
      OneMoreTimes(k, k - 1.0, x);
      OneMoreTimes(k, k - 1.0, d);
    }
  }

  lemma NoTimes(k: real, x: real, d: real)
    requires k == 0.0
    ensures k * x == 0.0 && k * d == 0.0
  {
  }

  lemma OneMoreTimes(n: real, k: real, x: real)
    requires n == k + 1.0
    ensures n * x == k * x + x
  {
  }

  function Zeros(n: nat): (s: seq<real>)
    ensures |s| == n && forall i :: 0 <= i < n ==> s[i] == 0.0
  {
    Copies(n, 0.0)
  }

  lemma ZerosSum(n: nat)
    ensures Sum(Zeros(n)) == 0.0
  {
    hide Sum, SumSquares, Square, Copies;
    CopiesSums(n, 0.0, 0.0, n as real, Square(0.0 - 0.0));
  }

  lemma ZerosSquares(n: nat, m: real, k: real, d: real)
    requires k == n as real && d == Square(m)
    ensures SumSquares(Zeros(n), m) == k * d
  {
    assert Square(0.0 - m) == Square(m);
    hide Sum, SumSquares, Square, Copies;
    CopiesSums(n, 0.0, m, k, d);
  }

  /** A single one in front of zeros. */
  function Spike(n: nat): (s: seq<real>)
    requires n > 0
    ensures |s| == n && s[0] == 1.0
  {
    [1.0] + Zeros(n - 1)
  }

  lemma SpikeSum(n: nat)
    requires n > 0
    ensures Sum(Spike(n)) == 1.0
  {
    hide Sum, SumSquares, Square;
    SumAppend([1.0], Zeros(n - 1));
    SingleSums(1.0, 0.0);
    ZerosSum(n - 1);
  }

  lemma SpikeSquares(n: nat, m: real, k: real)
    requires n > 0 && k == (n - 1) as real
    ensures SumSquares(Spike(n), m) == Square(1.0 - m) + k * Square(m)
  {
    hide Sum, SumSquares, Square;
    SumSquaresAppend([1.0], Zeros(n - 1), m);
    SingleSums(1.0, m);
    ZerosSquares(n - 1, m, k, Square(m));
  }

  /** Eleven samples are enough: a spike is an outlier in every window of at least eleven. */
  lemma SpikeFires(n: nat)
    requires n >= 11
    ensures Outlier(Spike(n), Spike(n)[0])
  {
    var s, r := Spike(n), n as real;
    assert Square(1.0 - Mean(s)) > 9.0 * Variance(s) by {
      hide Sum, SumSquares, Square, Mean, Variance;
      SpikeSum(n);
      SpikeSquares(n, Mean(s), r - 1.0);
      MeanTimesSize(s, r);
      SpikeArithmetic(r, Mean(s), Variance(s));
    }
  }

  lemma SpikeArithmetic(n: real, m: real, v: real)
    requires n >= 11.0 && n * m == 1.0
    requires n * v == Square(1.0 - m) + (n - 1.0) * Square(m)
    ensures Square(1.0 - m) > 9.0 * v
  {
    // n*v = 1 - m, so v = m*(1 - m)
    assert (n - 1.0) * Square(m) == m * (n * m) - m * m;
    assert Square(1.0 - m) == 1.0 - 2.0 * m + m * m;
    assert n * v == 1.0 - m;
    assert m * (n * v) == (n * m) * v;
    assert v == m * (1.0 - m);
    CancelFactor(n, 0.0, m);
    ScaleTo(m, 11.0, n, m * 11.0, 1.0);
    var c, e := (1.0 - m) * (9.0 * m), (1.0 - m) * (1.0 - m);
    assert c == 9.0 * v;
    ScaleStrictlyTo(1.0 - m, 9.0 * m, 1.0 - m, c, e);
  }

  /** Some window of `n` samples has its newest sample marked exactly when `n` is at least eleven. */
  lemma ElevenIsTheThreshold(n: nat)
    requires n > 0
    ensures (exists s: seq<real> :: |s| == n && Outlier(s, s[0])) <==> n >= 11
  {
    if n >= 11 {
      SpikeFires(n);
    } else {
      forall s: seq<real> | |s| == n ensures !Outlier(s, s[0]) {
        SmallWindowsNeverFire(s, 0);
      }
    }
  }

  // ---------- few samples are outliers ----------

  function CountBeyond(s: seq<real>, m: real, bound: real): (k: nat)
    ensures k <= |s|
  {
    if s == [] then 0
    else CountBeyond(s[..|s| - 1], m, bound) + if Square(s[|s| - 1] - m) > bound then 1 else 0
  }

  lemma {:induction false} BeyondWeighs(s: seq<real>, m: real, bound: real, k: real, q: real)
    requires bound >= 0.0 && k == CountBeyond(s, m, bound) as real && q == SumSquares(s, m)
    ensures k > 0.0 ==> k * bound < q
  {
    if s != [] {
      var n := |s| - 1;
      var k', q' := CountBeyond(s[..n], m, bound) as real, SumSquares(s[..n], m);
      BeyondWeighs(s[..n], m, bound, k', q');
      BeyondExtend(bound, k, q, k', q', Square(s[n] - m));
    }
  }

  lemma BeyondExtend(bound: real, k: real, q: real, k': real, q': real, d: real)
    requires bound >= 0.0 && k' >= 0.0 && q' >= 0.0 && d >= 0.0 && q == q' + d
    requires k == if d > bound then k' + 1.0 else k'
    requires k' > 0.0 ==> k' * bound < q'
    ensures k > 0.0 ==> k * bound < q
  {
    if d > bound {
      var w := k' * bound;
      assert k * bound == w + bound;
      assert k' == 0.0 ==> w == 0.0;
    }
  }

  ghost function Beyond(s: seq<real>, m: real, bound: real): set<int> {
    set i | 0 <= i < |s| && Square(s[i] - m) > bound
  }

  lemma BeyondOneMore(s: seq<real>, m: real, bound: real, n: nat)
    requires n == |s| - 1
    ensures Beyond(s, m, bound) == Beyond(s[..n], m, bound) + if Square(s[n] - m) > bound then {n} else {}
    ensures n !in Beyond(s[..n], m, bound)
  {
    hide Square;
  }

  lemma {:induction false} CountBeyondIsCardinality(s: seq<real>, m: real, bound: real)
    ensures CountBeyond(s, m, bound) == |Beyond(s, m, bound)|
  {
    hide Square;
    if s != [] {
      var n := |s| - 1;
      CountBeyondIsCardinality(s[..n], m, bound);
      hide Beyond;
      BeyondOneMore(s, m, bound, n);
    }
  }

  lemma ChebyshevArithmetic(k: real, n: real, v: real, q: real, bound: real)
    requires v >= 0.0 && bound == 9.0 * v && n * v == q && k * bound < q
    ensures 9.0 * k < n
  {
    var c, e := v * (9.0 * k), v * n;
    assert c == k * bound && e == q;
    if n <= 9.0 * k {
      ScaleTo(v, n, 9.0 * k, e, c);
    }
  }

  lemma FewBeyond(s: seq<real>, n: real, m: real, v: real)
    requires |s| > 0 && n == |s| as real && v >= 0.0 && n * v == SumSquares(s, m)
    ensures 9 * CountBeyond(s, m, 9.0 * v) < |s|
  {
    var k, q, bound := CountBeyond(s, m, 9.0 * v), SumSquares(s, m), 9.0 * v;
    if k > 0 {
      BeyondWeighs(s, m, bound, k as real, q);
      ChebyshevArithmetic(k as real, n, v, q, bound);
    }
  }

  /** Where in the window the outliers are. */
  ghost function OutlierPositions(s: seq<real>): set<int>
    requires |s| > 0
  {
    set i | 0 <= i < |s| && Outlier(s, s[i])
  }

  /** Chebyshev's bound on a finite window: fewer than a ninth of the samples are outliers. */
  lemma FewOutliers(s: seq<real>)
    requires |s| > 0
    ensures 9 * |OutlierPositions(s)| < |s|
  {
    hide Square, Mean, Variance, Sum, SumSquares, CountBeyond;
    var m, v := Mean(s), Variance(s);
    MeanTimesSize(s, |s| as real);
    FewBeyond(s, |s| as real, m, v);
    CountBeyondIsCardinality(s, m, 9.0 * v);
    assert OutlierPositions(s) == Beyond(s, m, 9.0 * v);
  }

  /** As many ones as minus ones, then zeros. */
  function Pairs(h: nat, n: nat): (s: seq<real>)
    requires 2 * h <= n
    ensures |s| == n
    ensures forall i :: 0 <= i < n ==> s[i] == if i < h then 1.0 else if i < 2 * h then -1.0 else 0.0
  {
    Copies(h, 1.0) + (Copies(h, -1.0) + Zeros(n - 2 * h))
  }

  lemma PairsSums(h: nat, n: nat)
    requires 2 * h <= n
    ensures Sum(Pairs(h, n)) == 0.0 && SumSquares(Pairs(h, n), 0.0) == (2 * h) as real
  {
    UnitSquares();
    hide Sum, SumSquares, Square, Copies, Zeros;
    AppendTwice(Copies(h, 1.0), Copies(h, -1.0), Zeros(n - 2 * h), 0.0);
    CopiesSums(h, 1.0, 0.0, h as real, 1.0);
    CopiesSums(h, -1.0, 0.0, h as real, 1.0);
    ZerosSum(n - 2 * h);
    ZerosSquares(n - 2 * h, 0.0, (n - 2 * h) as real, 0.0);
  }

  lemma UnitSquares()
    ensures Square(1.0 - 0.0) == 1.0 && Square(-1.0 - 0.0) == 1.0 && Square(0.0) == 0.0
  {
  }

  lemma PairsMoments(h: nat, n: nat, r: real)
    requires 2 * h <= n && 0 < n && r == n as real
    ensures Mean(Pairs(h, n)) == 0.0 && r * Variance(Pairs(h, n)) == (2 * h) as real
  {
    hide Sum, SumSquares, Mean, Variance, Pairs;
    var s := Pairs(h, n);
    PairsSums(h, n);
    MeanTimesSize(s, r);
    EqualAfterScaling(r, Mean(s), 0.0);
  }

  lemma PairsArithmetic(n: real, v: real, k: real)
    requires n > 0.0 && n * v == k && 9.0 * k < n
    ensures 1.0 > 9.0 * v
  {
    if 1.0 <= 9.0 * v {
      ScaleTo(n, 1.0, 9.0 * v, n, 9.0 * k);
    }
  }

  /** In a long enough window of this kind the outliers are exactly the samples that are not zero. */
  lemma PairsFire(h: nat, n: nat, i: nat)
    requires 9 * (2 * h) < n && i < n
    ensures Outlier(Pairs(h, n), Pairs(h, n)[i]) <==> i < 2 * h
  {
    UnitSquares();
    hide Square, Mean, Variance, Copies, Zeros;
    PairsMoments(h, n, n as real);
    PairsArithmetic(n as real, Variance(Pairs(h, n)), (2 * h) as real);
  }

  ghost function FirstPositions(k: nat): (r: set<int>)
    ensures |r| == k && forall i :: i in r <==> 0 <= i < k
  {
    if k == 0 then {} else FirstPositions(k - 1) + {k - 1}
  }

  /** The bound is attained: for even `k`, some window of `n` samples has `k` outliers exactly when it allows them. */
  lemma OutlierBoundIsTight(n: nat, k: nat)
    requires n > 0 && k % 2 == 0
    ensures (exists s: seq<real> :: |s| == n && |OutlierPositions(s)| == k) <==> 9 * k < n
  {
    if 9 * k < n {
      var h := k / 2;
      var s := Pairs(h, n);
      hide Outlier, Pairs;
      forall i | 0 <= i < n ensures Outlier(s, s[i]) <==> i < k {
        PairsFire(h, n, i);
      }
      assert OutlierPositions(s) == FirstPositions(k);
    } else {
      hide OutlierPositions;
      forall s: seq<real> | |s| == n ensures |OutlierPositions(s)| != k {
        FewOutliers(s);
      }
    }
  }

  // ---------- what the rule depends on ----------

  lemma SameLength(s: seq<real>, t: seq<real>)
    requires multiset(s) == multiset(t)
    ensures |s| == |t|
  {
    assert |s| == |multiset(s)| == |multiset(t)| == |t|;
  }

  /** Where the last element of a sequence is in a permutation of it. */
  lemma FindLast(s: seq<real>, t: seq<real>) returns (j: nat)
    requires s != [] && multiset(s) == multiset(t)
    ensures j < |t| && t[j] == s[|s| - 1]
  {
    assert s[|s| - 1] in multiset(t);
    j :| 0 <= j < |t| && t[j] == s[|s| - 1];
  }

  lemma CancelElement(a: multiset<real>, b: multiset<real>, x: real)
    requires a + multiset{x} == b + multiset{x}
    ensures a == b
  {
    assert a == (a + multiset{x}) - multiset{x};
    assert b == (b + multiset{x}) - multiset{x};
  }

  lemma {:induction false} SumsOfPermutation(s: seq<real>, t: seq<real>, m: real)
    requires multiset(s) == multiset(t)
    ensures |s| == |t| && Sum(s) == Sum(t) && SumSquares(s, m) == SumSquares(t, m)
    decreases |s|
  {
    hide Sum, SumSquares, Square;
    SameLength(s, t);
    if s == [] {
      assert t == [];
    } else {
      var n := |s| - 1;
      var j := FindLast(s, t);
      TakeOut(t, j, m);
      TakeOut(s, n, m);
      CancelElement(multiset(RemoveAt(s, n)), multiset(RemoveAt(t, j)), s[n]);
      SumsOfPermutation(RemoveAt(s, n), RemoveAt(t, j), m);
    }
  }

  /** Mean, variance and verdict do not depend on the order of the samples. */
  lemma OrderDoesNotMatter(s: seq<real>, t: seq<real>, x: real)
    requires |s| > 0 && multiset(s) == multiset(t)
    ensures |t| == |s| && Mean(s) == Mean(t) && Variance(s) == Variance(t)
    ensures Outlier(s, x) <==> Outlier(t, x)
  {
    assert |s| == |multiset(s)| == |multiset(t)| == |t|;
    SumsOfPermutation(s, t, 0.0);
    SumsOfPermutation(s, t, Mean(s));
  }

  function Rescaled(s: seq<real>, a: real, b: real): (t: seq<real>)
    ensures |t| == |s|
    ensures forall i :: 0 <= i < |s| ==> t[i] == a * s[i] + b
  {
    seq(|s|, i requires 0 <= i < |s| => a * s[i] + b)
  }

  lemma {:induction false} RescaledSums(
    s: seq<real>, a: real, b: real, m: real, c: real, n: real, t: real, q: real, t': real, q': real)
    requires c == a * m + b
    requires n == |s| as real && t == Sum(s) && q == SumSquares(s, m)
    requires t' == Sum(Rescaled(s, a, b)) && q' == SumSquares(Rescaled(s, a, b), c)
    ensures t' == a * t + n * b && q' == Square(a) * q
  {
    hide Sum, SumSquares, Square, Rescaled;
    var r := Rescaled(s, a, b);
    if s == [] {
      EmptySums(m);
      EmptySums(c);
      NoTimes(n, b, 0.0);
    } else {
      var i := |s| - 1;
      LastSums(s, m);
      LastSums(r, c);
      RescaledPrefix(s, a, b);
      var n0, t0, q0 := |s[..i]| as real, Sum(s[..i]), SumSquares(s[..i], m);
      var t1, q1 := Sum(r[..i]), SumSquares(r[..i], c);
      RescaledSums(s[..i], a, b, m, c, n0, t0, q0, t1, q1);
      RescaledExtend(a, b, m, c, n, t, q, t', q', s[i], r[i], n0, t0, q0, t1, q1);
    }
  }

  lemma RescaledExtend(
    a: real, b: real, m: real, c: real, n: real, t: real, q: real, t': real, q': real, x: real, x': real,
    n0: real, t0: real, q0: real, t1: real, q1: real)
    requires c == a * m + b && x' == a * x + b
    requires n == n0 + 1.0 && t == t0 + x && q == q0 + Square(x - m)
    requires t' == t1 + x' && q' == q1 + Square(x' - c)
    requires t1 == a * t0 + n0 * b && q1 == Square(a) * q0
    ensures t' == a * t + n * b && q' == Square(a) * q
  {
    assert x' - c == a * (x - m);
    SquareOfProduct(a, x - m);
    assert Square(a) * q == Square(a) * q0 + Square(a) * Square(x - m);
  }

  lemma RescaledPrefix(s: seq<real>, a: real, b: real)
    requires s != []
    ensures Rescaled(s, a, b)[..|s| - 1] == Rescaled(s[..|s| - 1], a, b)
  {
    var n := |s| - 1;
    forall i | 0 <= i < n ensures Rescaled(s, a, b)[..n][i] == Rescaled(s[..n], a, b)[i] {
      assert s[..n][i] == s[i];
    }
  }

  lemma SquareOfProduct(a: real, d: real)
    ensures Square(a * d) == Square(a) * Square(d)
  {
  }

  lemma EqualAfterScaling(n: real, a: real, b: real)
    requires n != 0.0 && n * a == n * b
    ensures a == b
  {
  }

  lemma MeanScales(n: real, a: real, b: real, m: real, t: real, m': real)
    requires n != 0.0 && n * m == t && n * m' == a * t + n * b
    ensures m' == a * m + b
  {
    assert n * (a * m + b) == a * (n * m) + n * b;
    EqualAfterScaling(n, m', a * m + b);
  }

  lemma VarianceScales(n: real, c: real, v: real, q: real, q': real)
    requires n * v == q && q' == c * q
    ensures q' == n * (c * v)
  {
    assert n * (c * v) == c * (n * v);
  }

  lemma RescaledMoments(s: seq<real>, a: real, b: real, n: real, m: real, v: real, m': real)
    requires n == |s| as real && n > 0.0 && n * m == Sum(s) && n * v == SumSquares(s, m)
    requires n * m' == Sum(Rescaled(s, a, b))
    ensures m' == a * m + b
    ensures SumSquares(Rescaled(s, a, b), a * m + b) == n * (Square(a) * v)
  {
    hide *;
    var r, c := Rescaled(s, a, b), a * m + b;
    var t, q, t', q' := Sum(s), SumSquares(s, m), Sum(r), SumSquares(r, c);
    assert t' == a * t + n * b && q' == Square(a) * q by {
      RescaledSums(s, a, b, m, c, n, t, q, t', q');
    }
    assert m' == c by {
      MeanScales(n, a, b, m, t, m');
    }
    VarianceScales(n, Square(a), v, q, q');
  }

  lemma RescaledMean(s: seq<real>, a: real, b: real)
    requires |s| > 0
    ensures Mean(Rescaled(s, a, b)) == a * Mean(s) + b
    ensures Variance(Rescaled(s, a, b)) == Square(a) * Variance(s)
  {
    hide *;
    var r, n := Rescaled(s, a, b), |s| as real;
    MeanTimesSize(s, n);
    MeanTimesSize(r, n);
    RescaledMoments(s, a, b, n, Mean(s), Variance(s), Mean(r));
    EqualAfterScaling(n, Variance(r), Square(a) * Variance(s));
  }

  /** The verdict does not depend on the unit or the zero of the measured quantity. */
  lemma ScaleDoesNotMatter(s: seq<real>, x: real, a: real, b: real)
    requires |s| > 0 && a != 0.0
    ensures Outlier(Rescaled(s, a, b), a * x + b) <==> Outlier(s, x)
  {
    RescaledMean(s, a, b);
    RescaledTest(a, x - Mean(s), Variance(s));
    assert a * x + b - (a * Mean(s) + b) == a * (x - Mean(s));
  }

  lemma RescaledTest(a: real, d: real, v: real)
    requires a != 0.0
    ensures Square(a * d) > 9.0 * (Square(a) * v) <==> Square(d) > 9.0 * v
  {
    SquareOfProduct(a, d);
    SquarePositive(a);
    assert 9.0 * (Square(a) * v) == Square(a) * (9.0 * v);
    var c, e := Square(a) * (9.0 * v), Square(a) * Square(d);
    if Square(d) > 9.0 * v {
      ScaleStrictlyTo(Square(a), 9.0 * v, Square(d), c, e);
    } else {
      ScaleTo(Square(a), Square(d), 9.0 * v, e, c);
    }
  }
}
